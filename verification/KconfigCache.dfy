/**
  The incremental evaluator: symbol and choice objects with cached values, the
  properties that fill the caches on demand, and the setters that drop what a
  change may have made stale.

  Every property returns what its rule gives, only adds cache entries, and ends
  because the objects it reads are ranked below it, or sit in an earlier layer of
  the same choice: choice visibility, mode, symbol visibility, selection, value.
 */
module KconfigCache {
  import opened Common
  import opened KconfigModel
  import opened KconfigReads
  import opened KconfigValues
  import opened KconfigCaching
  import opened KconfigInvalidate
  import opened KconfigSettings
  import opened KconfigLinks

  class SymbolCell {
    var user: Option<Value>
    var vis: Option<Tri>
    var tri: Option<Tri>
    var str: Option<string>
    var asn: Option<seq<Tri>>
    var write: bool
    var wasSet: bool
    var dependents: set<Item>

    ghost function Now(): SymState
      reads this
    {
      SymState(user, vis, tri, str, asn, write, wasSet, dependents)
    }

    constructor ()
      ensures Now() == NewSymState
    {
      user, vis, tri, str, asn := None, None, None, None, None;
      write, wasSet := false, false;
      dependents := {};
    }
  }

  class ChoiceCell {
    var user: Option<Tri>
    var picked: Option<nat>
    var vis: Option<Tri>
    var sel: Option<Option<nat>>
    var asn: Option<seq<Tri>>
    var wasSet: bool
    var dependents: set<Item>

    ghost function Now(): ChoiceState
      reads this
    {
      ChoiceState(user, picked, vis, sel, asn, wasSet, dependents)
    }

    constructor ()
      ensures Now() == NewChoiceState
    {
      user, picked, vis, sel, asn := None, None, None, None, None;
      wasSet := false;
      dependents := {};
    }
  }

  class Kconfig {
    const k: Kconf
    const syms: seq<SymbolCell>
    const choices: seq<ChoiceCell>
    ghost const rank: Item -> nat
    ghost const top: nat

    ghost function Now(): State
      reads syms, choices
    {
      State(seq(|syms|, i requires 0 <= i < |syms| reads syms => syms[i].Now()),
            seq(|choices|, i requires 0 <= i < |choices| reads choices => choices[i].Now()))
    }

    /** One object per symbol and per choice of a ranked tree. */
    ghost predicate Shape() {
      && |syms| == |k.syms| && |choices| == |k.choices|
      && (forall i, j | 0 <= i < j < |syms| :: syms[i] != syms[j])
      && (forall i, j | 0 <= i < j < |choices| :: choices[i] != choices[j])
      && WellFormed(k) && Ranked(k, rank, top)
    }

    ghost predicate Valid()
      reads syms, choices
    {
      Shape() && Justified(k, Now()) && PicksMembers(k, Now())
    }

    // ---- Writing single fields ----

    method PutVis(s: nat, v: Tri)
      requires Shape() && s < |syms|
      modifies syms[s]
      ensures Now() == WithSym(old(Now()), s, old(Now()).syms[s].(vis := Some(v)))
    {
      syms[s].vis := Some(v);
    }

    method PutTri(s: nat, v: Tri, write: bool)
      requires Shape() && s < |syms|
      modifies syms[s]
      ensures Now() == WithSym(old(Now()), s, old(Now()).syms[s].(tri := Some(v), write := write))
    {
      syms[s].tri := Some(v);
      syms[s].write := write;
    }

    method PutStr(s: nat, v: string, write: bool)
      requires Shape() && s < |syms|
      modifies syms[s]
      ensures Now() == WithSym(old(Now()), s, old(Now()).syms[s].(str := Some(v), write := write))
    {
      syms[s].str := Some(v);
      syms[s].write := write;
    }

    method PutAsn(s: nat, v: seq<Tri>)
      requires Shape() && s < |syms|
      modifies syms[s]
      ensures Now() == WithSym(old(Now()), s, old(Now()).syms[s].(asn := Some(v)))
    {
      syms[s].asn := Some(v);
    }

    method PutChoiceVis(c: nat, v: Tri)
      requires Shape() && c < |choices|
      modifies choices[c]
      ensures Now() == WithChoice(old(Now()), c, old(Now()).choices[c].(vis := Some(v)))
    {
      choices[c].vis := Some(v);
    }

    method PutSel(c: nat, v: Option<nat>)
      requires Shape() && c < |choices|
      modifies choices[c]
      ensures Now() == WithChoice(old(Now()), c, old(Now()).choices[c].(sel := Some(v)))
    {
      choices[c].sel := Some(v);
    }

    method PutChoiceAsn(c: nat, v: seq<Tri>)
      requires Shape() && c < |choices|
      modifies choices[c]
      ensures Now() == WithChoice(old(Now()), c, old(Now()).choices[c].(asn := Some(v)))
    {
      choices[c].asn := Some(v);
    }

    // ---- Operands and expressions ----

    /** What an owner of rank r may mention: lower items and, where modes are available, its own choice. */
    ghost predicate Below(e: Expr, r: nat, own: Option<nat>) {
      forall z | Mentions(e, z) ::
        && InTree(k, z)
        && (rank(z) < r || (own.Some? && z == IChoice(own.value) && rank(z) == r))
    }

    ghost predicate OperandBelow(o: Operand, r: nat) {
      o.Sym? ==> o.s < |k.syms| && rank(ISym(o.s)) < r
    }

    method OperandTri(o: Operand, ghost r: nat) returns (v: Tri)
      requires Valid() && OperandBelow(o, r)
      modifies syms, choices
      ensures Valid() && Later(k, old(Now()), Now())
      ensures TriOf(k, Now(), o) == Some(v)
      decreases r, 0, 0
    {
      match o
      case Known(t) => v := t; LaterReflexive(k, Now());
      case Text(_) => v := 0; LaterReflexive(k, Now());
      case Sym(s) => v := TriValue(s);
    }

    method OperandStr(o: Operand, ghost r: nat) returns (v: string)
      requires Valid() && OperandBelow(o, r)
      modifies syms, choices
      ensures Valid() && Later(k, old(Now()), Now())
      ensures StrOf(k, Now(), o) == Some(v)
      decreases r, 0, 0
    {
      match o
      case Known(t) => v := TriName(t); LaterReflexive(k, Now());
      case Text(name) => v := name; LaterReflexive(k, Now());
      case Sym(s) => v := StrValue(s);
    }

    method OperandNum(o: Operand, ghost r: nat) returns (v: Option<int>)
      requires Valid() && OperandBelow(o, r)
      modifies syms, choices
      ensures Valid() && Later(k, old(Now()), Now())
      ensures NumOf(k, Now(), o) == Some(v)
      decreases r, 0, 1
    {
      if BoolLike(KindOf(k, o)) {
        var t := OperandTri(o, r);
        v := Some(t);
      } else {
        var s := OperandStr(o, r);
        v := k.numbers.parse(s, Base(KindOf(k, o)));
      }
    }

    method OperandLex(a: Operand, b: Operand, ghost r: nat) returns (comp: int)
      requires Valid() && OperandBelow(a, r) && OperandBelow(b, r)
      modifies syms, choices
      ensures Valid() && Later(k, old(Now()), Now())
      ensures LexCompare(k, Now(), a, b) == Some(comp)
      decreases r, 0, 1
    {
      var s := OperandStr(a, r);
      ghost var w := Now();
      var t := OperandStr(b, r);
      LaterTransitive(k, old(Now()), w, Now());
      StrStays(k, w, Now(), a);
      comp := StrCmp(s, t);
    }

    method OperandCompare(a: Operand, b: Operand, ghost r: nat) returns (comp: int)
      requires Valid() && OperandBelow(a, r) && OperandBelow(b, r)
      modifies syms, choices
      ensures Valid() && Later(k, old(Now()), Now())
      ensures Compare(k, Now(), a, b) == Some(comp)
      decreases r, 0, 2, 2
    {
      if KindOf(k, a) == Str && KindOf(k, b) == Str {
        comp := OperandLex(a, b, r);
      } else {
        comp := OperandNumCompare(a, b, r);
      }
    }

    method OperandNumCompare(a: Operand, b: Operand, ghost r: nat) returns (comp: int)
      requires Valid() && OperandBelow(a, r) && OperandBelow(b, r)
      requires !(KindOf(k, a) == Str && KindOf(k, b) == Str)
      modifies syms, choices
      ensures Valid() && Later(k, old(Now()), Now())
      ensures Compare(k, Now(), a, b) == Some(comp)
      decreases r, 0, 2, 1
    {
      var x, y := OperandNums(a, b, r);
      if x.Some? && y.Some? {
        comp := x.value - y.value;
      } else {
        comp := OperandLexAfter(a, b, r, x, y, old(Now()));
      }
    }

    /** One of the operands is no number. */
    method OperandLexAfter(a: Operand, b: Operand, ghost r: nat, ghost x: Option<int>, ghost y: Option<int>, ghost w0: State)
      returns (comp: int)
      requires Valid() && OperandBelow(a, r) && OperandBelow(b, r) && Later(k, w0, Now())
      requires NumOf(k, Now(), a) == Some(x) && (x.Some? ==> NumOf(k, Now(), b) == Some(y)) && (x.None? || y.None?)
      modifies syms, choices
      ensures Valid() && Later(k, w0, Now())
      ensures Compare(k, Now(), a, b) == Some(comp)
      decreases r, 0, 2, 0
    {
      ghost var w := Now();
      comp := OperandLex(a, b, r);
      LaterTransitive(k, w0, w, Now());
      NumStays(k, w, Now(), a);
      if x.Some? { NumStays(k, w, Now(), b); }
    }

    /** Both operands as numbers; the second is not looked at when the first is no number. */
    method OperandNums(a: Operand, b: Operand, ghost r: nat) returns (x: Option<int>, y: Option<int>)
      requires Valid() && OperandBelow(a, r) && OperandBelow(b, r)
      modifies syms, choices
      ensures Valid() && Later(k, old(Now()), Now())
      ensures NumOf(k, Now(), a) == Some(x)
      ensures if x.Some? then NumOf(k, Now(), b) == Some(y) else y.None?
      decreases r, 0, 2, 0
    {
      x := OperandNum(a, r);
      y := None;
      if x.Some? {
        ghost var w := Now();
        y := OperandNum(b, r);
        LaterTransitive(k, old(Now()), w, Now());
        NumStays(k, w, Now(), a);
      }
    }

    method ExprValue(e: Expr, ghost r: nat, ghost layer: nat, ghost own: Option<nat>) returns (v: Tri)
      requires Valid() && Below(e, r, own) && (own.Some? ==> layer >= 2)
      modifies syms, choices
      ensures Valid() && Later(k, old(Now()), Now())
      ensures ExprVal(k, Now(), e) == Some(v)
      decreases r, layer, 3, e
    {
      match e {
        case Use(o) =>
          assert o.Sym? ==> Mentions(e, ISym(o.s));
          v := OperandTri(o, r);
        case Mode(c) =>
          assert Mentions(e, IChoice(c));
          v := ModeValue(c);
        case And(lhs, rhs) =>
          var a := ExprValue(lhs, r, layer, own);
          if a == 0 {
            v := 0;
          } else {
            ghost var w := Now();
            var b := ExprValue(rhs, r, layer, own);
            LaterTransitive(k, old(Now()), w, Now());
            ExprStays(k, w, Now(), lhs);
            v := Min(a, b);
          }
        case Or(lhs, rhs) =>
          var a := ExprValue(lhs, r, layer, own);
          if a == 2 {
            v := 2;
          } else {
            ghost var w := Now();
            var b := ExprValue(rhs, r, layer, own);
            LaterTransitive(k, old(Now()), w, Now());
            ExprStays(k, w, Now(), lhs);
            v := Max(a, b);
          }
        case Not(x) =>
          var a := ExprValue(x, r, layer, own);
          v := 2 - a;
        case Rel(op, a, b) =>
          assert a.Sym? ==> Mentions(e, ISym(a.s));
          assert b.Sym? ==> Mentions(e, ISym(b.s));
          var comp := OperandCompare(a, b, r);
          v := if Holds(op, comp) then 2 else 0;
      }
    }

    /** The first entry whose condition is not n, and the value of that condition. */
    method FirstActiveEntry<T>(gs: seq<Guarded<T>>, ghost r: nat, ghost layer: nat, ghost own: Option<nat>)
      returns (i: nat, v: Tri)
      requires Valid() && (own.Some? ==> layer >= 2)
      requires forall j | 0 <= j < |gs| :: Below(gs[j].cond, r, own)
      modifies syms, choices
      ensures Valid() && Later(k, old(Now()), Now())
      ensures i <= |gs| && FirstActive(k, Now(), gs, 0) == Some(i)
      ensures i < |gs| ==> ExprVal(k, Now(), gs[i].cond) == Some(v)
      decreases r, layer, 4
    {
      i, v := 0, 0;
      LaterReflexive(k, Now());
      while i < |gs|
        invariant i <= |gs|
        invariant Valid() && Later(k, old(Now()), Now())
        invariant forall j | 0 <= j < i :: ExprVal(k, Now(), gs[j].cond) == Some(0)
      {
        ghost var w := Now();
        v := ExprValue(gs[i].cond, r, layer, own);
        LaterTransitive(k, old(Now()), w, Now());
        forall j | 0 <= j < i ensures ExprVal(k, Now(), gs[j].cond) == Some(0) {
          ExprStays(k, w, Now(), gs[j].cond);
        }
        if v > 0 {
          break;
        }
        i := i + 1;
      }
      FirstActiveSkips(k, Now(), gs, 0, i);
    }

    // ---- Visibility and mode ----

    method PromptVisibility(prompts: seq<Expr>, ghost r: nat, ghost layer: nat, ghost own: Option<nat>) returns (v: Tri)
      requires Valid() && (own.Some? ==> layer >= 2)
      requires forall j | 0 <= j < |prompts| :: Below(prompts[j], r, own)
      modifies syms, choices
      ensures Valid() && Later(k, old(Now()), Now())
      ensures PromptVis(k, Now(), prompts, |prompts|) == Some(v)
      decreases r, layer, 4
    {
      v := 0;
      var i := 0;
      LaterReflexive(k, Now());
      while i < |prompts|
        invariant i <= |prompts|
        invariant Valid() && Later(k, old(Now()), Now())
        invariant PromptVis(k, Now(), prompts, i) == Some(v)
      {
        ghost var w := Now();
        var x := ExprValue(prompts[i], r, layer, own);
        LaterTransitive(k, old(Now()), w, Now());
        PromptVisStays(k, w, Now(), prompts, i);
        v := Max(v, x);
        i := i + 1;
      }
    }

    method ModulesDisabled(ghost r: nat) returns (off: bool)
      requires Valid() && OperandBelow(k.modules, r)
      modifies syms, choices
      ensures Valid() && Later(k, old(Now()), Now())
      ensures ModulesOff(k, Now()) == Some(off)
      decreases r, 0, 1
    {
      var t := OperandTri(k.modules, r);
      off := t == 0;
    }

    method ChoiceVisibility(c: nat) returns (v: Tri)
      requires Valid() && c < |choices|
      modifies syms, choices
      ensures Valid() && Later(k, old(Now()), Now())
      ensures Now().choices[c].vis == Some(v)
      decreases rank(IChoice(c)), 0, 5
    {
      if choices[c].vis.Some? {
        v := choices[c].vis.value;
        LaterReflexive(k, Now());
        return;
      }
      ghost var r := rank(IChoice(c));
      assert ChoiceRanked(k, rank, c);
      ChoicePromptsBelow(c);
      v := PromptVisibility(k.choices[c].prompts, r, 0, None);
      if v == 1 {
        ghost var w := Now();
        var promote := true;
        if k.choices[c].kind == Tristate {
          promote := ModulesDisabled(r);
          LaterTransitive(k, old(Now()), w, Now());
          PromptVisStays(k, w, Now(), k.choices[c].prompts, |k.choices[c].prompts|);
        }
        if promote {
          v := 2;
        }
      }
      ghost var w := Now();
      CacheChoice(k, w, c, w.choices[c].(vis := Some(v)));
      PutChoiceVis(c, v);
      LaterTransitive(k, old(Now()), w, Now());
    }

    lemma ChoicePromptsBelow(c: nat)
      requires Shape() && c < |choices|
      ensures forall j | 0 <= j < |k.choices[c].prompts| :: Below(k.choices[c].prompts[j], rank(IChoice(c)), None)
      ensures forall j | 0 <= j < |k.choices[c].defaults| :: Below(k.choices[c].defaults[j].cond, rank(IChoice(c)), None)
    {
      assert ChoiceRanked(k, rank, c);
      forall j, z | 0 <= j < |k.choices[c].prompts| && Mentions(k.choices[c].prompts[j], z)
        ensures InTree(k, z) && rank(z) < rank(IChoice(c))
      {
        assert ChoiceMentions(k.choices[c], z);
      }
      forall j, z | 0 <= j < |k.choices[c].defaults| && Mentions(k.choices[c].defaults[j].cond, z)
        ensures InTree(k, z) && rank(z) < rank(IChoice(c))
      {
        assert CondsMention(k.choices[c].defaults, z);
        assert ChoiceMentions(k.choices[c], z);
      }
    }

    /** The mode of a choice; it is not cached. */
    method ModeValue(c: nat) returns (v: Tri)
      requires Valid() && c < |choices|
      modifies syms, choices
      ensures Valid() && Later(k, old(Now()), Now())
      ensures ModeOf(k, Now(), c) == Some(v)
      decreases rank(IChoice(c)), 1, 5
    {
      v := if k.choices[c].optional then 0 else 1;
      if choices[c].user.Some? {
        v := Max(v, choices[c].user.value);
      }
      assert ChoiceRanked(k, rank, c);
      var vis := ChoiceVisibility(c);
      ghost var w := Now();
      assert w.choices[c].user == old(Now()).choices[c].user;
      v := Min(v, vis);
      if v == 1 {
        if k.choices[c].kind == Bool {
          v := 2;
        } else if k.choices[c].kind == Tristate {
          var off := ModulesDisabled(rank(IChoice(c)));
          LaterTransitive(k, old(Now()), w, Now());
          assert ChoiceAgrees(w, Now(), c);
          if off {
            v := 2;
          }
        }
      }
    }

    lemma SymExprsBelow(s: nat)
      requires Shape() && s < |syms|
      ensures var d, r := k.syms[s], rank(ISym(s));
              && (forall j | 0 <= j < |d.prompts| :: Below(d.prompts[j], r, d.choice))
              && (forall j | 0 <= j < |d.defaults| :: Below(d.defaults[j].cond, r, d.choice) && Below(d.defaults[j].item, r, d.choice))
              && (forall j | 0 <= j < |d.ranges| :: Below(d.ranges[j].cond, r, d.choice))
              && (forall j | 0 <= j < |d.ranges| ::
                    OperandBelow(d.ranges[j].item.0, r) && OperandBelow(d.ranges[j].item.1, r))
              && Below(d.revDep, r, d.choice) && Below(d.weakRevDep, r, d.choice) && Below(d.directDep, r, d.choice)
    {
      var d, r := k.syms[s], rank(ISym(s));
      assert SymRanked(k, rank, s);
      forall z | SymMentions(d, z)
        ensures InTree(k, z) && (rank(z) < r || (d.choice.Some? && z == IChoice(d.choice.value) && rank(z) == r))
      {
      }
      forall j | 0 <= j < |d.ranges|
        ensures OperandBelow(d.ranges[j].item.0, r) && OperandBelow(d.ranges[j].item.1, r)
      {
        RangeBelow(s, j, d.ranges[j].item.0);
        RangeBelow(s, j, d.ranges[j].item.1);
      }
    }

    lemma RangeBelow(s: nat, j: nat, o: Operand)
      requires Shape() && s < |syms| && j < |k.syms[s].ranges|
      requires o == k.syms[s].ranges[j].item.0 || o == k.syms[s].ranges[j].item.1
      ensures OperandBelow(o, rank(ISym(s)))
    {
      assert SymRanked(k, rank, s);
      if o.Sym? {
        var d := k.syms[s].ranges[j];
        assert NamesSym(d.item.0, ISym(o.s)) || NamesSym(d.item.1, ISym(o.s));
        assert BoundsMention(k.syms[s].ranges, ISym(o.s));
        assert SymMentions(k.syms[s], ISym(o.s));
        assert InTree(k, ISym(o.s));
      }
    }

    method IsNotTristate(s: nat) returns (b: bool)
      requires Valid() && s < |syms|
      modifies syms, choices
      ensures Valid() && Later(k, old(Now()), Now())
      ensures NotTristate(k, Now(), s) == Some(b)
      decreases rank(ISym(s)), 2, 4
    {
      assert SymRanked(k, rank, s) && SymWellFormed(k, k.syms[s]);
      LaterReflexive(k, Now());
      if k.syms[s].kind != Tristate {
        b := true;
        return;
      }
      if k.syms[s].choice.Some? {
        var mode := ModeValue(k.syms[s].choice.value);
        if mode == 2 {
          b := true;
          return;
        }
        ghost var w := Now();
        b := ModulesDisabled(rank(ISym(s)));
        LaterTransitive(k, old(Now()), w, Now());
        ModeStays(k, w, Now(), k.syms[s].choice.value);
      } else {
        b := ModulesDisabled(rank(ISym(s)));
      }
    }

    method SymVisibility(s: nat) returns (v: Tri)
      requires Valid() && s < |syms|
      modifies syms, choices
      ensures Valid() && Later(k, old(Now()), Now())
      ensures Now().syms[s].vis == Some(v)
      decreases rank(ISym(s)), 2, 6
    {
      if syms[s].vis.Some? {
        v := syms[s].vis.value;
        LaterReflexive(k, Now());
        return;
      }
      assert SymWellFormed(k, k.syms[s]);
      SymExprsBelow(s);
      var raw := PromptVisibility(k.syms[s].prompts, rank(ISym(s)), 2, k.syms[s].choice);
      ghost var w := Now();
      v := AdjustedVisibility(s, raw);
      LaterTransitive(k, old(Now()), w, Now());
      PromptVisStays(k, w, Now(), k.syms[s].prompts, |k.syms[s].prompts|);
      ghost var w' := Now();
      CacheSymVis(k, w', s, v);
      PutVis(s, v);
      LaterTransitive(k, old(Now()), w', Now());
    }

    /** The choice rules and the promotion of m. */
    method AdjustedVisibility(s: nat, raw: Tri) returns (v: Tri)
      requires Valid() && s < |syms|
      modifies syms, choices
      ensures Valid() && Later(k, old(Now()), Now())
      ensures SymVisFrom(k, Now(), s, raw) == Some(v)
      decreases rank(ISym(s)), 2, 5
    {
      assert SymRanked(k, rank, s) && SymWellFormed(k, k.syms[s]);
      var d := k.syms[s];
      v := raw;
      LaterReflexive(k, Now());
      if d.choice.Some? {
        if k.choices[d.choice.value].kind == Tristate && d.kind != Tristate {
          var mode := ModeValue(d.choice.value);
          if mode != 2 {
            v := 0;
            return;
          }
        } else if d.kind == Tristate && raw == 1 {
          var mode := ModeValue(d.choice.value);
          if mode == 2 {
            v := 0;
            return;
          }
        }
      }
      ghost var w := Now();
      if v == 1 {
        var promote := IsNotTristate(s);
        LaterTransitive(k, old(Now()), w, Now());
        if d.choice.Some? && ModeOf(k, w, d.choice.value).Some? { ModeStays(k, w, Now(), d.choice.value); }
        if promote {
          v := 2;
        }
      }
    }

    // ---- Selections ----

    method FirstVisibleMember(ss: seq<nat>, c: nat) returns (sel: Option<nat>)
      requires Valid() && c < |choices| && ss == k.choices[c].syms
      modifies syms, choices
      ensures Valid() && Later(k, old(Now()), Now())
      ensures FirstVisible(Now(), ss, 0) == Some(sel)
      decreases rank(IChoice(c)), 3, 0
    {
      var i := 0;
      LaterReflexive(k, Now());
      while i < |ss|
        invariant i <= |ss|
        invariant Valid() && Later(k, old(Now()), Now())
        invariant forall j | 0 <= j < i :: VisOf(Now(), ss[j]) == Some(0)
      {
        var vis := NextMemberVis(c, i, old(Now()));
        if vis > 0 {
          FirstVisibleSkips(Now(), ss, 0, i);
          sel := Some(ss[i]);
          return;
        }
        i := i + 1;
      }
      FirstVisibleSkips(Now(), ss, 0, i);
      sel := None;
    }

    method NextMemberVis(c: nat, i: nat, ghost w0: State) returns (vis: Tri)
      requires Valid() && c < |choices| && i < |k.choices[c].syms| && Later(k, w0, Now())
      requires forall j | 0 <= j < i :: VisOf(Now(), k.choices[c].syms[j]) == Some(0)
      modifies syms, choices
      ensures Valid() && Later(k, w0, Now())
      ensures forall j | 0 <= j < i :: VisOf(Now(), k.choices[c].syms[j]) == Some(0)
      ensures VisOf(Now(), k.choices[c].syms[i]) == Some(vis)
      decreases rank(IChoice(c)), 2, 9
    {
      MemberInTree(k, c, k.choices[c].syms[i]);
      assert SymRanked(k, rank, k.choices[c].syms[i]);
      ghost var w := Now();
      vis := SymVisibility(k.choices[c].syms[i]);
      AllHiddenStay(k, w0, w, Now(), c, i);
    }

    /** Whether one default of a choice is active and visible. */
    method DefaultApplies(c: nat, i: nat) returns (b: bool)
      requires Valid() && c < |choices| && i < |k.choices[c].defaults|
      modifies syms, choices
      ensures Valid() && Later(k, old(Now()), Now())
      ensures var d := k.choices[c].defaults[i];
              if b then
                && ExprVal(k, Now(), d.cond).Some? && ExprVal(k, Now(), d.cond).value > 0
                && VisOf(Now(), d.item).Some? && VisOf(Now(), d.item).value > 0
              else DefaultSkipped(k, Now(), d)
      decreases rank(IChoice(c)), 3, 4, 0
    {
      var d := k.choices[c].defaults[i];
      assert ChoiceWellFormed(k, c);
      ChoicePromptsBelow(c);
      MemberInTree(k, c, d.item);
      assert SymRanked(k, rank, d.item);
      var v := ExprValue(d.cond, rank(IChoice(c)), 3, None);
      b := false;
      if v > 0 {
        ghost var w := Now();
        var vis := SymVisibility(d.item);
        LaterTransitive(k, old(Now()), w, Now());
        ExprStays(k, w, Now(), d.cond);
        b := vis > 0;
      }
    }

    method FirstDefaultMember(c: nat) returns (sel: Option<nat>)
      requires Valid() && c < |choices|
      modifies syms, choices
      ensures Valid() && Later(k, old(Now()), Now())
      ensures DefaultSel(k, Now(), k.choices[c].defaults, 0) == Some(sel)
      decreases rank(IChoice(c)), 3, 5
    {
      var ds := k.choices[c].defaults;
      var i := FirstDefaultIndex(c);
      DefaultSelSkips(k, Now(), ds, 0, i);
      sel := if i < |ds| then Some(ds[i].item) else None;
    }

    /** The first default that is active and visible, or the number of defaults. */
    method FirstDefaultIndex(c: nat) returns (i: nat)
      requires Valid() && c < |choices|
      modifies syms, choices
      ensures Valid() && Later(k, old(Now()), Now())
      ensures var ds := k.choices[c].defaults;
              && i <= |ds| && (forall j | 0 <= j < i :: DefaultSkipped(k, Now(), ds[j]))
              && (i < |ds| ==>
                    && ExprVal(k, Now(), ds[i].cond).Some? && ExprVal(k, Now(), ds[i].cond).value > 0
                    && VisOf(Now(), ds[i].item).Some? && VisOf(Now(), ds[i].item).value > 0)
      decreases rank(IChoice(c)), 3, 4, 2
    {
      i := 0;
      LaterReflexive(k, Now());
      while i < |k.choices[c].defaults|
        invariant i <= |k.choices[c].defaults|
        invariant Valid() && Later(k, old(Now()), Now())
        invariant forall j | 0 <= j < i :: DefaultSkipped(k, Now(), k.choices[c].defaults[j])
      {
        var b := NextDefaultApplies(c, i, old(Now()));
        if b { return; }
        i := i + 1;
      }
    }

    method NextDefaultApplies(c: nat, i: nat, ghost w0: State) returns (b: bool)
      requires Valid() && c < |choices| && i < |k.choices[c].defaults| && Later(k, w0, Now())
      requires forall j | 0 <= j < i :: DefaultSkipped(k, Now(), k.choices[c].defaults[j])
      modifies syms, choices
      ensures Valid() && Later(k, w0, Now())
      ensures forall j | 0 <= j < i :: DefaultSkipped(k, Now(), k.choices[c].defaults[j])
      ensures var d := k.choices[c].defaults[i];
              if b then
                && ExprVal(k, Now(), d.cond).Some? && ExprVal(k, Now(), d.cond).value > 0
                && VisOf(Now(), d.item).Some? && VisOf(Now(), d.item).value > 0
              else DefaultSkipped(k, Now(), d)
      decreases rank(IChoice(c)), 3, 4, 1
    {
      ghost var w := Now();
      b := DefaultApplies(c, i);
      AllSkippedStay(k, w0, w, Now(), c, i);
    }

    method DefaultSelection(c: nat) returns (sel: Option<nat>)
      requires Valid() && c < |choices|
      modifies syms, choices
      ensures Valid() && Later(k, old(Now()), Now())
      ensures SelFromDefaults(k, Now(), c) == Some(sel)
      decreases rank(IChoice(c)), 3, 6
    {
      sel := FirstDefaultMember(c);
      if sel.None? {
        ghost var w := Now();
        sel := FirstVisibleMember(k.choices[c].syms, c);
        LaterTransitive(k, old(Now()), w, Now());
        DefaultSelStays(k, w, Now(), c);
      }
    }

    method Selection(c: nat) returns (sel: Option<nat>)
      requires Valid() && c < |choices|
      modifies syms, choices
      ensures Valid() && Later(k, old(Now()), Now())
      ensures Now().choices[c].sel == Some(sel)
      decreases rank(IChoice(c)), 3, 8
    {
      if choices[c].sel.Some? {
        sel := choices[c].sel.value;
        LaterReflexive(k, Now());
        return;
      }
      sel := ComputedSelection(c);
      ghost var w := Now();
      CacheChoice(k, w, c, w.choices[c].(sel := Some(sel)));
      PutSel(c, sel);
      LaterTransitive(k, old(Now()), w, Now());
    }

    method ComputedSelection(c: nat) returns (sel: Option<nat>)
      requires Valid() && c < |choices|
      modifies syms, choices
      ensures Valid() && Later(k, old(Now()), Now())
      ensures ChoiceSel(k, Now(), c) == Some(sel)
      decreases rank(IChoice(c)), 3, 7
    {
      var mode := ModeValue(c);
      ghost var w := Now();
      if mode != 2 {
        sel := None;
        return;
      }
      if choices[c].picked.Some? {
        var p := choices[c].picked.value;
        MemberInTree(k, c, p);
        assert SymRanked(k, rank, p);
        var vis := SymVisibility(p);
        LaterTransitive(k, old(Now()), w, Now());
        ModeStays(k, w, Now(), c);
        if vis > 0 {
          sel := Some(p);
          return;
        }
      }
      ghost var w' := Now();
      LaterReflexive(k, w');
      sel := DefaultSelection(c);
      LaterTransitive(k, w, w', Now());
      LaterTransitive(k, old(Now()), w, Now());
      ModeStays(k, w, Now(), c);
      if w.choices[c].picked.Some? { assert SymAgrees(k, w', Now(), w.choices[c].picked.value); }
    }

    // ---- Bool and tristate values ----

    method TriValue(s: nat) returns (v: Tri)
      requires Valid() && s < |syms|
      modifies syms, choices
      ensures Valid() && Later(k, old(Now()), Now())
      ensures TriOf(k, Now(), Sym(s)) == Some(v)
      ensures BoolLike(k.syms[s].kind) ==> Now().syms[s].tri == Some(v)
      decreases rank(ISym(s)), 4, 9
    {
      LaterReflexive(k, Now());
      assert SymJustified(k, Now(), s);
      if syms[s].tri.Some? {
        v := syms[s].tri.value;
        return;
      }
      if !BoolLike(k.syms[s].kind) {
        ghost var x := Now().syms[s];
        CacheConstant(k, Now(), s, x.(tri := Some(0)));
        PutTri(s, 0, syms[s].write);
        v := 0;
        return;
      }
      var write;
      v, write := ComputedTri(s);
      ghost var w := Now();
      CacheSymTri(k, w, s, v, write);
      PutTri(s, v, write);
      LaterTransitive(k, old(Now()), w, Now());
    }

    method ComputedTri(s: nat) returns (v: Tri, write: bool)
      requires Valid() && s < |syms|
      modifies syms, choices
      ensures Valid() && Later(k, old(Now()), Now())
      ensures SymTri(k, Now(), s) == Some((v, write))
      decreases rank(ISym(s)), 4, 8
    {
      assert SymRanked(k, rank, s) && SymWellFormed(k, k.syms[s]);
      var vis := SymVisibility(s);
      ghost var w := Now();
      write := vis > 0;
      v := 0;
      if k.syms[s].choice.None? {
        v, write := PlainTriValue(s, vis);
        LaterTransitive(k, old(Now()), w, Now());
        assert SymAgrees(k, w, Now(), s);
      } else if vis == 2 {
        var sel := Selection(k.syms[s].choice.value);
        LaterTransitive(k, old(Now()), w, Now());
        assert SymAgrees(k, w, Now(), s);
        v := if sel == Some(s) then 2 else 0;
      } else if vis > 0 && syms[s].user.Some? && UserTri(syms[s].user.value) > 0 {
        v := 1;
      }
    }

    method BaseTriValue(s: nat, vis: Tri) returns (v: Tri, write: bool)
      requires Valid() && s < |syms|
      modifies syms, choices
      ensures Valid() && Later(k, old(Now()), Now())
      ensures BaseTri(k, Now(), s, vis) == Some((v, write))
      decreases rank(ISym(s)), 4, 6
    {
      LaterReflexive(k, Now());
      if vis > 0 && syms[s].user.Some? {
        v, write := Min(UserTri(syms[s].user.value), vis), true;
        return;
      }
      v := DefaultTriValue(s);
      ghost var w := Now();
      write := vis > 0 || v > 0;
      ghost var d0 := v;
      v, write := ImpliedValue(s, v, write);
      LaterTransitive(k, old(Now()), w, Now());
      DefaultTriStays(k, w, Now(), s);
    }

    method ImpliedValue(s: nat, val: Tri, wr: bool) returns (v: Tri, write: bool)
      requires Valid() && s < |syms|
      modifies syms, choices
      ensures Valid() && Later(k, old(Now()), Now())
      ensures ImpliedTri(k, Now(), s, val, wr) == Some((v, write))
      decreases rank(ISym(s)), 4, 5
    {
      var d := k.syms[s];
      SymExprsBelow(s);
      v, write := val, wr;
      var weak := ExprValue(d.weakRevDep, rank(ISym(s)), 4, d.choice);
      if weak > 0 {
        ghost var w := Now();
        var direct := ExprValue(d.directDep, rank(ISym(s)), 4, d.choice);
        LaterTransitive(k, old(Now()), w, Now());
        ExprStays(k, w, Now(), d.weakRevDep);
        if direct > 0 {
          v, write := Max(weak, v), true;
        }
      }
    }

    method PlainTriValue(s: nat, vis: Tri) returns (v: Tri, write: bool)
      requires Valid() && s < |syms| && k.syms[s].choice.None?
      modifies syms, choices
      ensures Valid() && Later(k, old(Now()), Now())
      ensures PlainTri(k, Now(), s, vis) == Some((v, write))
      decreases rank(ISym(s)), 4, 7
    {
      SymExprsBelow(s);
      v, write := BaseTriValue(s, vis);
      ghost var w := Now();
      var rev := ExprValue(k.syms[s].revDep, rank(ISym(s)), 4, k.syms[s].choice);
      ghost var w' := Now();
      LaterTransitive(k, old(Now()), w, w');
      BaseTriStays(k, w, w', s, vis);
      if rev > 0 {
        v, write := Max(rev, v), true;
      }
      v := PromotedValue(s, v);
      LaterTransitive(k, old(Now()), w', Now());
      BaseTriStays(k, w', Now(), s, vis);
      ExprStays(k, w', Now(), k.syms[s].revDep);
    }

    method DefaultTriValue(s: nat) returns (v: Tri)
      requires Valid() && s < |syms|
      modifies syms, choices
      ensures Valid() && Later(k, old(Now()), Now())
      ensures DefaultTri(k, Now(), k.syms[s].defaults) == Some(v)
      decreases rank(ISym(s)), 4, 5
    {
      var ds := k.syms[s].defaults;
      SymExprsBelow(s);
      var i, c := FirstActiveEntry(ds, rank(ISym(s)), 4, k.syms[s].choice);
      v := 0;
      if i < |ds| {
        ghost var w := Now();
        v := ExprValue(ds[i].item, rank(ISym(s)), 4, k.syms[s].choice);
        LaterTransitive(k, old(Now()), w, Now());
        FirstActiveStays(k, w, Now(), ds);
        ExprStays(k, w, Now(), ds[i].cond);
        v := Min(v, c);
      }
    }

    method PromotedValue(s: nat, val: Tri) returns (v: Tri)
      requires Valid() && s < |syms| && k.syms[s].choice.None?
      modifies syms, choices
      ensures Valid() && Later(k, old(Now()), Now())
      ensures PromotedTri(k, Now(), s, val) == Some(v)
      decreases rank(ISym(s)), 4, 5
    {
      v := val;
      LaterReflexive(k, Now());
      if val == 1 {
        SymExprsBelow(s);
        var isBool := IsNotTristate(s);
        if isBool {
          v := 2;
          return;
        }
        ghost var w := Now();
        var weak := ExprValue(k.syms[s].weakRevDep, rank(ISym(s)), 4, k.syms[s].choice);
        LaterTransitive(k, old(Now()), w, Now());
        NotTristateStays(k, w, Now(), s);
        if weak == 2 {
          v := 2;
        }
      }
    }

    // ---- String, int and hex values ----

    method StrValue(s: nat) returns (v: string)
      requires Valid() && s < |syms|
      modifies syms, choices
      ensures Valid() && Later(k, old(Now()), Now())
      ensures StrOf(k, Now(), Sym(s)) == Some(v)
      ensures Now().syms[s].str == Some(v)
      decreases rank(ISym(s)), 5, 8
    {
      LaterReflexive(k, Now());
      assert SymJustified(k, Now(), s);
      if syms[s].str.Some? {
        v := syms[s].str.value;
        return;
      }
      if BoolLike(k.syms[s].kind) {
        var t := TriValue(s);
        ghost var w := Now();
        v := TriName(t);
        CacheConstant(k, w, s, w.syms[s].(str := Some(v)));
        PutStr(s, v, syms[s].write);
        LaterTransitive(k, old(Now()), w, Now());
      } else if k.syms[s].kind == Unknown {
        v := k.syms[s].name;
        CacheConstant(k, Now(), s, Now().syms[s].(str := Some(v)));
        PutStr(s, v, syms[s].write);
      } else {
        var write;
        v, write := ComputedStr(s);
        ghost var w := Now();
        CacheSymStr(k, w, s, v, write);
        PutStr(s, v, write);
        LaterTransitive(k, old(Now()), w, Now());
      }
    }

    method ComputedStr(s: nat) returns (v: string, write: bool)
      requires Valid() && s < |syms| && !BoolLike(k.syms[s].kind) && k.syms[s].kind != Unknown
      modifies syms, choices
      ensures Valid() && Later(k, old(Now()), Now())
      ensures SymStr(k, Now(), s) == Some((v, write))
      decreases rank(ISym(s)), 5, 7
    {
      var vis := SymVisibility(s);
      ghost var w := Now();
      LaterReflexive(k, w);
      if k.syms[s].kind == Str {
        if vis > 0 && syms[s].user.Some? {
          v, write := TextOf(syms[s].user.value), true;
        } else {
          var def := DefaultStrValue(s);
          v := if def.Some? then def.value else "";
          write := vis > 0 || def.Some?;
        }
      } else {
        v, write := NumberStrValue(s, vis);
      }
      LaterTransitive(k, old(Now()), w, Now());
      assert SymAgrees(k, w, Now(), s);
      if k.syms[s].unwritten {
        write := false;
      }
    }

    method DefaultStrValue(s: nat) returns (v: Option<string>)
      requires Valid() && s < |syms| && !BoolLike(k.syms[s].kind) && k.syms[s].kind != Unknown
      modifies syms, choices
      ensures Valid() && Later(k, old(Now()), Now())
      ensures DefaultStr(k, Now(), k.syms[s].defaults) == Some(v)
      decreases rank(ISym(s)), 5, 5
    {
      var ds := k.syms[s].defaults;
      SymExprsBelow(s);
      assert SymRanked(k, rank, s) && SymWellFormed(k, k.syms[s]);
      var i, c := FirstActiveEntry(ds, rank(ISym(s)), 5, k.syms[s].choice);
      v := None;
      if i < |ds| {
        var o := ds[i].item.o;
        assert o.Sym? ==> Mentions(ds[i].item, ISym(o.s));
        ghost var w := Now();
        var x := OperandStr(o, rank(ISym(s)));
        LaterTransitive(k, old(Now()), w, Now());
        FirstActiveStays(k, w, Now(), ds);
        v := Some(x);
      }
    }

    method ActiveRangeValue(s: nat) returns (range: Option<(int, int)>)
      requires Valid() && s < |syms|
      modifies syms, choices
      ensures Valid() && Later(k, old(Now()), Now())
      ensures ActiveRange(k, Now(), s) == Some(range)
      decreases rank(ISym(s)), 5, 5
    {
      var gs := k.syms[s].ranges;
      SymExprsBelow(s);
      var i, c := FirstActiveEntry(gs, rank(ISym(s)), 5, k.syms[s].choice);
      range := None;
      if i < |gs| {
        ghost var w := Now();
        var low := OperandStr(gs[i].item.0, rank(ISym(s)));
        ghost var w' := Now();
        var high := OperandStr(gs[i].item.1, rank(ISym(s)));
        LaterTransitive(k, w, w', Now());
        LaterTransitive(k, old(Now()), w, Now());
        StrStays(k, w', Now(), gs[i].item.0);
        FirstActiveStays(k, w, Now(), gs);
        var base := Base(k.syms[s].kind);
        range := Some((ParseOrZero(k, low, base), ParseOrZero(k, high, base)));
      }
    }

    method NumberStrValue(s: nat, vis: Tri) returns (v: string, write: bool)
      requires Valid() && s < |syms| && !BoolLike(k.syms[s].kind) && k.syms[s].kind != Unknown
      modifies syms, choices
      ensures Valid() && Later(k, old(Now()), Now())
      ensures NumberStr(k, Now(), s, vis) == Some((v, write))
      decreases rank(ISym(s)), 5, 6
    {
      var range := ActiveRangeValue(s);
      ghost var w := Now();
      var user := syms[s].user;
      if vis > 0 && user.Some? && TextOf(user.value) != "" &&
         InRange(ParseOrZero(k, TextOf(user.value), Base(k.syms[s].kind)), range)
      {
        v, write := TextOf(user.value), true;
        return;
      }
      var def := DefaultStrValue(s);
      LaterTransitive(k, old(Now()), w, Now());
      ActiveRangeStays(k, w, Now(), s);
      v := Clamp(k, k.syms[s].kind, def, range);
      write := vis > 0 || def.Some?;
    }

    // ---- Assignable values ----

    method Assignable(s: nat) returns (v: seq<Tri>)
      requires Valid() && s < |syms|
      modifies syms, choices
      ensures Valid() && Later(k, old(Now()), Now())
      ensures Now().syms[s].asn == Some(v)
      ensures BoolLike(k.syms[s].kind) ==> SymAsn(k, Now(), s) == Some(v)
      decreases rank(ISym(s)), 6, 7
    {
      LaterReflexive(k, Now());
      assert SymJustified(k, Now(), s);
      if syms[s].asn.Some? {
        v := syms[s].asn.value;
        return;
      }
      if !BoolLike(k.syms[s].kind) {
        v := [];
        CacheConstant(k, Now(), s, Now().syms[s].(asn := Some([])));
        PutAsn(s, []);
        return;
      }
      v := ComputedAssignable(s);
      ghost var w := Now();
      CacheSymAsn(k, w, s, v);
      PutAsn(s, v);
      LaterTransitive(k, old(Now()), w, Now());
      assert SymJustified(k, Now(), s);
    }

    method ComputedAssignable(s: nat) returns (v: seq<Tri>)
      requires Valid() && s < |syms| && BoolLike(k.syms[s].kind)
      modifies syms, choices
      ensures Valid() && Later(k, old(Now()), Now())
      ensures SymAsn(k, Now(), s) == Some(v)
      decreases rank(ISym(s)), 6, 6
    {
      var d := k.syms[s];
      ghost var r := rank(ISym(s));
      SymExprsBelow(s);
      var vis := SymVisibility(s);
      ghost var w := Now();
      if vis == 0 {
        v := [];
        return;
      }
      var rev := ExprValue(d.revDep, r, 6, d.choice);
      ghost var w1 := Now();
      LaterTransitive(k, old(Now()), w, w1);
      assert SymAgrees(k, w, w1, s);
      if (vis == 2 && d.choice.Some?) || rev == 2 {
        v := [2];
        return;
      }
      if vis == 2 {
        var isBool := IsNotTristate(s);
        ghost var w2 := Now();
        LaterTransitive(k, old(Now()), w1, w2);
        ExprStays(k, w1, w2, d.revDep);
        assert SymAgrees(k, w1, w2, s);
        var pinned := isBool;
        if !isBool {
          var weak := ExprValue(d.weakRevDep, r, 6, d.choice);
          LaterTransitive(k, old(Now()), w2, Now());
          ExprStays(k, w2, Now(), d.revDep);
          NotTristateStays(k, w2, Now(), s);
          assert SymAgrees(k, w2, Now(), s);
          pinned := weak == 2;
        }
        v := if rev == 0 then (if pinned then [0, 2] else [0, 1, 2]) else (if pinned then [2] else [1, 2]);
      } else if rev == 0 {
        var weak := ExprValue(d.weakRevDep, r, 6, d.choice);
        LaterTransitive(k, old(Now()), w1, Now());
        ExprStays(k, w1, Now(), d.revDep);
        assert SymAgrees(k, w1, Now(), s);
        v := if weak != 2 then [0, 1] else [0, 2];
      } else {
        v := [1];
      }
    }

    method ChoiceAssignable(c: nat) returns (v: seq<Tri>)
      requires Valid() && c < |choices|
      modifies syms, choices
      ensures Valid() && Later(k, old(Now()), Now())
      ensures Now().choices[c].asn == Some(v)
    {
      if choices[c].asn.Some? {
        v := choices[c].asn.value;
        LaterReflexive(k, Now());
        return;
      }
      assert ChoiceRanked(k, rank, c);
      var vis := ChoiceVisibility(c);
      ghost var w := Now();
      LaterReflexive(k, w);
      if vis == 0 {
        v := [];
      } else if vis == 2 {
        var isBool := k.choices[c].kind == Bool;
        if k.choices[c].kind == Tristate {
          isBool := ModulesDisabled(rank(IChoice(c)));
        }
        v := if !k.choices[c].optional then (if isBool then [2] else [1, 2])
             else (if isBool then [0, 2] else [0, 1, 2]);
      } else {
        v := if k.choices[c].optional then [0, 1] else [1];
      }
      LaterTransitive(k, old(Now()), w, Now());
      assert ChoiceAgrees(w, Now(), c);
      ghost var w' := Now();
      CacheChoice(k, w', c, w'.choices[c].(asn := Some(v)));
      PutChoiceAsn(c, v);
      LaterTransitive(k, old(Now()), w', Now());
    }

    // ---- Building the dependents ----

    method LinkToSym(y: Item, s: nat)
      requires Shape() && s < |syms|
      modifies syms[s]
      ensures Now() == WithSym(old(Now()), s, old(Now()).syms[s].(dependents := old(Now()).syms[s].dependents + {y}))
    {
      syms[s].dependents := syms[s].dependents + {y};
    }

    method LinkToChoice(y: Item, c: nat)
      requires Shape() && c < |choices|
      modifies choices[c]
      ensures Now() == WithChoice(old(Now()), c, old(Now()).choices[c].(dependents := old(Now()).choices[c].dependents + {y}))
    {
      choices[c].dependents := choices[c].dependents + {y};
    }

    method Link(y: Item, z: Item)
      requires Shape()
      modifies syms, choices
      ensures LinksAdded(old(Now()), Now(), y, iset{z})
    {
      match z
      case ISym(s) => if s < |syms| { LinkToSym(y, s); }
      case IChoice(c) => if c < |choices| { LinkToChoice(y, c); }
    }

    method LinkOperand(y: Item, o: Operand)
      requires Shape()
      modifies syms, choices
      ensures LinksAdded(old(Now()), Now(), y, InOperand(o))
    {
      if o.Sym? {
        Link(y, ISym(o.s));
        assert iset{ISym(o.s)} == InOperand(o);
      } else {
        LinksAddedNone(Now(), y, InOperand(o));
      }
    }

    /** Registers y with every item that e mentions. */
    method DependOn(y: Item, e: Expr)
      requires Shape()
      modifies syms, choices
      ensures LinksAdded(old(Now()), Now(), y, InExpr(e))
      decreases e
    {
      match e {
        case Use(o) =>
          LinkOperand(y, o);
          assert InOperand(o) == InExpr(e);
        case Mode(c) =>
          Link(y, IChoice(c));
          assert iset{IChoice(c)} == InExpr(e);
        case And(l, r) =>
          ghost var w := Now();
          DependOn(y, l);
          ghost var w' := Now();
          DependOn(y, r);
          LinksAddedTwice(w, w', Now(), y, InExpr(l), InExpr(r));
          assert InExpr(l) + InExpr(r) == InExpr(e);
        case Or(l, r) =>
          ghost var w := Now();
          DependOn(y, l);
          ghost var w' := Now();
          DependOn(y, r);
          LinksAddedTwice(w, w', Now(), y, InExpr(l), InExpr(r));
          assert InExpr(l) + InExpr(r) == InExpr(e);
        case Not(x) =>
          DependOn(y, x);
          assert InExpr(x) == InExpr(e);
        case Rel(_, a, b) =>
          ghost var w := Now();
          LinkOperand(y, a);
          ghost var w' := Now();
          LinkOperand(y, b);
          LinksAddedTwice(w, w', Now(), y, InOperand(a), InOperand(b));
          assert InOperand(a) + InOperand(b) == InExpr(e);
      }
    }

    method DependOnPrompts(y: Item, prompts: seq<Expr>)
      requires Shape()
      modifies syms, choices
      ensures LinksAdded(old(Now()), Now(), y, InPrompts(prompts, |prompts|))
    {
      LinksAddedNone(Now(), y, InPrompts(prompts, 0));
      for i := 0 to |prompts|
        invariant LinksAdded(old(Now()), Now(), y, InPrompts(prompts, i))
      {
        ghost var w := Now();
        DependOn(y, prompts[i]);
        LinksAddedTwice(old(Now()), w, Now(), y, InPrompts(prompts, i), InExpr(prompts[i]));
      }
    }

    method DependOnConds<T>(y: Item, gs: seq<Guarded<T>>)
      requires Shape()
      modifies syms, choices
      ensures LinksAdded(old(Now()), Now(), y, InConds(gs, |gs|))
    {
      LinksAddedNone(Now(), y, InConds(gs, 0));
      for i := 0 to |gs|
        invariant LinksAdded(old(Now()), Now(), y, InConds(gs, i))
      {
        ghost var w := Now();
        DependOn(y, gs[i].cond);
        LinksAddedTwice(old(Now()), w, Now(), y, InConds(gs, i), InExpr(gs[i].cond));
      }
    }

    method DependOnDefaults(y: Item, gs: seq<Guarded<Expr>>)
      requires Shape()
      modifies syms, choices
      ensures LinksAdded(old(Now()), Now(), y, InDefaults(gs))
    {
      LinksAddedNone(Now(), y, InValues(gs, 0));
      for i := 0 to |gs|
        invariant LinksAdded(old(Now()), Now(), y, InValues(gs, i))
      {
        ghost var w := Now();
        DependOn(y, gs[i].item);
        LinksAddedTwice(old(Now()), w, Now(), y, InValues(gs, i), InExpr(gs[i].item));
      }
      ghost var w := Now();
      DependOnConds(y, gs);
      LinksAddedTwice(old(Now()), w, Now(), y, InValues(gs, |gs|), InConds(gs, |gs|));
    }

    method DependOnRanges(y: Item, gs: seq<Guarded<(Operand, Operand)>>)
      requires Shape()
      modifies syms, choices
      ensures LinksAdded(old(Now()), Now(), y, InRanges(gs))
    {
      LinksAddedNone(Now(), y, InBounds(gs, 0));
      for i := 0 to |gs|
        invariant LinksAdded(old(Now()), Now(), y, InBounds(gs, i))
      {
        var (low, high) := gs[i].item;
        ghost var w := Now();
        LinkOperand(y, low);
        ghost var w' := Now();
        LinksAddedTwice(old(Now()), w, w', y, InBounds(gs, i), InOperand(low));
        LinkOperand(y, high);
        LinksAddedTwice(old(Now()), w', Now(), y, InBounds(gs, i) + InOperand(low), InOperand(high));
      }
      ghost var w := Now();
      DependOnConds(y, gs);
      LinksAddedTwice(old(Now()), w, Now(), y, InBounds(gs, |gs|), InConds(gs, |gs|));
    }

    /** The dependencies of one symbol: prompts and defaults, reverse dependencies, ranges, direct dependencies. */
    method BuildSymDep(s: nat)
      requires Shape() && s < |syms|
      modifies syms, choices
      ensures LinksAdded(old(Now()), Now(), ISym(s), InSym(k.syms[s]))
    {
      var d, y := k.syms[s], ISym(s);
      DependOnPrompts(y, d.prompts);
      ghost var w := Now();
      DependOnDefaults(y, d.defaults);
      ghost var w' := Now();
      LinksAddedTwice(old(Now()), w, w', y, InPrompts(d.prompts, |d.prompts|), InDefaults(d.defaults));
      BuildSymDepRest(s);
      LinksAddedTwice(old(Now()), w', Now(), y, InPrompts(d.prompts, |d.prompts|) + InDefaults(d.defaults),
                      InDeps(d) + (InRanges(d.ranges) + InExpr(d.directDep)));
    }

    method BuildSymDepRest(s: nat)
      requires Shape() && s < |syms|
      modifies syms, choices
      ensures var d := k.syms[s];
              LinksAdded(old(Now()), Now(), ISym(s), InDeps(d) + (InRanges(d.ranges) + InExpr(d.directDep)))
    {
      var d, y := k.syms[s], ISym(s);
      DependOn(y, d.revDep);
      ghost var w := Now();
      DependOn(y, d.weakRevDep);
      ghost var w' := Now();
      LinksAddedTwice(old(Now()), w, w', y, InExpr(d.revDep), InExpr(d.weakRevDep));
      BuildSymDepLast(s);
      LinksAddedTwice(old(Now()), w', Now(), y, InDeps(d), InRanges(d.ranges) + InExpr(d.directDep));
    }

    method BuildSymDepLast(s: nat)
      requires Shape() && s < |syms|
      modifies syms, choices
      ensures LinksAdded(old(Now()), Now(), ISym(s), InRanges(k.syms[s].ranges) + InExpr(k.syms[s].directDep))
    {
      DependOnRanges(ISym(s), k.syms[s].ranges);
      ghost var w := Now();
      DependOn(ISym(s), k.syms[s].directDep);
      LinksAddedTwice(old(Now()), w, Now(), ISym(s), InRanges(k.syms[s].ranges), InExpr(k.syms[s].directDep));
    }

    method BuildChoiceDep(c: nat)
      requires Shape() && c < |choices|
      modifies syms, choices
      ensures LinksAdded(old(Now()), Now(), IChoice(c), InChoice(k.choices[c]))
    {
      var d, y := k.choices[c], IChoice(c);
      DependOnPrompts(y, d.prompts);
      ghost var w := Now();
      DependOnConds(y, d.defaults);
      LinksAddedTwice(old(Now()), w, Now(), y, InPrompts(d.prompts, |d.prompts|), InConds(d.defaults, |d.defaults|));
    }

    /** Afterwards the dependents of every item are the items that mention it. */
    method BuildDep()
      requires Shape() && NoLinks(Now())
      modifies syms, choices
      ensures LinkedTo(k, old(Now()), Now(), |k.syms|, |k.choices|, 0)
    {
      ghost var w := Now();
      for s := 0 to |syms|
        invariant LinkedTo(k, w, Now(), s, 0, 0)
      {
        ghost var w' := Now();
        BuildSymDep(s);
        LinkedNextSym(k, w, w', Now(), s);
      }
      for c := 0 to |choices|
        invariant LinkedTo(k, w, Now(), |k.syms|, c, 0)
      {
        ghost var w' := Now();
        BuildChoiceDep(c);
        LinkedNextChoice(k, w, w', Now(), c);
      }
    }

    /** Adds the dependency of each choice on its symbols. */
    method AddChoiceDeps(ghost w: State)
      requires Shape() && LinkedTo(k, w, Now(), |k.syms|, |k.choices|, 0)
      modifies syms, choices
      ensures LinkedTo(k, w, Now(), |k.syms|, |k.choices|, |k.choices|)
    {
      for c := 0 to |choices|
        invariant LinkedTo(k, w, Now(), |k.syms|, |k.choices|, c)
      {
        var ss := k.choices[c].syms;
        ghost var w' := Now();
        LinksAddedNone(w', IChoice(c), InMembers(ss, 0));
        for i := 0 to |ss|
          invariant LinksAdded(w', Now(), IChoice(c), InMembers(ss, i))
        {
          ghost var w'' := Now();
          Link(IChoice(c), ISym(ss[i]));
          LinksAddedTwice(w', w'', Now(), IChoice(c), InMembers(ss, i), iset{ISym(ss[i])});
        }
        LinkedNextMembers(k, w, w', Now(), c);
      }
    }

    // ---- Invalidation ----

    method Invalidate(z: Item)
      requires Shape() && InTree(k, z)
      modifies syms, choices
      ensures IsCleared(old(Now()), Now(), {z})
    {
      ghost var w := Now();
      match z {
        case ISym(s) =>
          syms[s].vis, syms[s].tri, syms[s].str, syms[s].asn := None, None, None, None;
          assert Now() == WithSym(w, s, ClearSym(w.syms[s]));
        case IChoice(c) =>
          choices[c].vis, choices[c].sel, choices[c].asn := None, None, None;
          assert Now() == WithChoice(w, c, ClearChoice(w.choices[c]));
      }
    }

    method InvalidateAll() returns (ghost gone: set<Item>)
      requires Shape()
      modifies syms, choices
      ensures IsCleared(old(Now()), Now(), gone)
      ensures forall z | InTree(k, z) :: z in gone
    {
      gone := {};
      for s := 0 to |syms|
        invariant IsCleared(old(Now()), Now(), gone)
        invariant forall i | 0 <= i < s :: ISym(i) in gone
      {
        ghost var w := Now();
        Invalidate(ISym(s));
        ClearedTwice(old(Now()), w, Now(), gone, {ISym(s)});
        gone := gone + {ISym(s)};
      }
      for c := 0 to |choices|
        invariant IsCleared(old(Now()), Now(), gone)
        invariant forall i | 0 <= i < |syms| :: ISym(i) in gone
        invariant forall i | 0 <= i < c :: IChoice(i) in gone
      {
        ghost var w := Now();
        Invalidate(IChoice(c));
        ClearedTwice(old(Now()), w, Now(), gone, {IChoice(c)});
        gone := gone + {IChoice(c)};
      }
    }

    method HasVis(z: Item) returns (b: bool)
      requires Shape()
      ensures b == VisCached(Now(), z)
    {
      match z
      case ISym(s) => b := s < |syms| && syms[s].vis.Some?;
      case IChoice(c) => b := c < |choices| && choices[c].vis.Some?;
    }

    method Dependents(z: Item) returns (d: set<Item>)
      requires Shape() && InTree(k, z)
      ensures d == DependentsOf(Now(), z)
    {
      match z
      case ISym(s) => d := syms[s].dependents;
      case IChoice(c) => d := choices[c].dependents;
    }

    /**
      Drops the cached values of z and of everything that may depend on it.  The
      walk stops at items without a cached visibility, so it ends even though a
      choice and its symbols depend on each other.
     */
    method RecInvalidate(z: Item) returns (ghost gone: set<Item>)
      requires Shape() && InTree(k, z) && Linked(k, Now())
      modifies syms, choices
      ensures IsCleared(old(Now()), Now(), gone) && z in gone
      ensures AllSwept(k, Now(), gone)
      decreases VisSet(Now()) - {z}, 1
    {
      ghost var w := Now();
      if z.ISym? && k.modules == Sym(z.s) {
        gone := InvalidateAll();
        forall x, y | x in gone && InTree(k, y) ensures !VisCached(Now(), y) {
          ClearedVis(w, Now(), gone, y);
        }
        return;
      }
      Invalidate(z);
      gone := {z};
      var rest := Dependents(z);
      assert DependentsOf(Now(), z) == DependentsOf(w, z);
      while rest != {}
        invariant rest <= DependentsOf(w, z)
        invariant IsCleared(w, Now(), gone) && z in gone
        invariant forall x | x in gone && x != z :: Swept(k, Now(), x)
        invariant forall y | y in DependentsOf(w, z) && y !in rest :: !VisCached(Now(), y)
        decreases |rest|
      {
        var y :| y in rest;
        rest := rest - {y};
        gone := InvalidateDependent(y, z, w, rest, gone);
      }
      SelfSwept(w, Now(), z);
    }

    method InvalidateDependent(y: Item, ghost z: Item, ghost w: State, ghost rest: set<Item>, ghost gone: set<Item>)
      returns (ghost gone': set<Item>)
      requires Shape() && InTree(k, z) && Linked(k, w) && y in DependentsOf(w, z)
      requires IsCleared(w, Now(), gone) && z in gone
      requires forall x | x in gone && x != z :: Swept(k, Now(), x)
      requires forall x | x in DependentsOf(w, z) && x !in rest && x != y :: !VisCached(Now(), x)
      modifies syms, choices
      ensures IsCleared(w, Now(), gone') && z in gone'
      ensures forall x | x in gone' && x != z :: Swept(k, Now(), x)
      ensures forall x | x in DependentsOf(w, z) && x !in rest :: !VisCached(Now(), x)
      decreases VisSet(w) - {z}, 0
    {
      gone' := gone;
      var cached := HasVis(y);
      if cached {
        ghost var w' := Now();
        assert DependsOn(k, y, z);
        ClearedLinked(k, w, w', gone);
        ClearedVisSet(w, w', gone);
        VisSetIs(w', y);
        ghost var more := RecInvalidate(y);
        StepSwept(w, w', Now(), z, y, rest, gone, more);
        gone' := gone + more;
      }
    }

    /** One dependent further: what was swept stays swept. */
    lemma StepSwept(w: State, w': State, w'': State, z: Item, y: Item, rest: set<Item>, gone: set<Item>, more: set<Item>)
      requires IsCleared(w, w', gone) && IsCleared(w', w'', more) && y in more
      requires forall x | x in gone && x != z :: Swept(k, w', x)
      requires AllSwept(k, w'', more)
      requires forall x | x in DependentsOf(w, z) && x !in rest && x != y :: !VisCached(w', x)
      ensures IsCleared(w, w'', gone + more)
      ensures forall x | x in gone + more && x != z :: Swept(k, w'', x)
      ensures forall x | x in DependentsOf(w, z) && x !in rest :: !VisCached(w'', x)
    {
      ClearedTwice(w, w', w'', gone, more);
      forall x | x in gone && x != z ensures Swept(k, w'', x) {
        SweptStays(k, w', w'', more, x);
      }
      forall x | x in DependentsOf(w, z) && x !in rest ensures !VisCached(w'', x) {
        ClearedVis(w', w'', more, x);
      }
    }

    lemma SelfSwept(w: State, w': State, z: Item)
      requires Linked(k, w) && InTree(k, z) && !IsModules(k, z)
      requires forall y | y in DependentsOf(w, z) :: !VisCached(w', y)
      ensures Swept(k, w', z)
    {
      forall y | InTree(k, y) && (DependsOn(k, y, z) || IsModules(k, z)) ensures !VisCached(w', y) {
        assert y in DependentsOf(w, z);
      }
    }

    method RecInvalidateIfHasPrompt(s: nat) returns (ghost gone: set<Item>)
      requires Shape() && s < |syms| && Linked(k, Now())
      modifies syms, choices
      ensures IsCleared(old(Now()), Now(), gone) && AllSwept(k, Now(), gone)
      ensures ISym(s) in gone || k.syms[s].prompts == []
    {
      gone := {};
      if k.syms[s].prompts != [] {
        gone := RecInvalidate(ISym(s));
      }
    }

    // ---- Setters ----

    /** After a change of settings and the walk that follows it, the cache is justified again. */
    lemma Restored(w: State, w1: State, w2: State, gone: set<Item>)
      requires Shape() && Justified(k, w) && PicksMembers(k, w) && Linked(k, w)
      requires SweptChange(k, w, w1, w2, gone) && PicksMembers(k, w1)
      ensures Justified(k, w2) && PicksMembers(k, w2) && Linked(k, w2)
      ensures SettingsOf(w2) == SettingsOf(w1)
    {
      SweptJustified(k, w, w1, w2, gone);
      SameLinks(w, w1);
      ClearedLinked(k, w1, w2, gone);
    }

    lemma SameLinks(w: State, w1: State)
      requires Linked(k, w) && SameCaches(w, w1)
      ensures Linked(k, w1)
    {
      forall z | InTree(k, z) ensures DependentsOf(w1, z) == DependentsOf(w, z) {
      }
    }

    method PutUser(s: nat, v: Option<Value>, mark: bool)
      requires Shape() && s < |syms|
      modifies syms[s]
      ensures Now() == WithUser(old(Now()), s, v, mark)
    {
      syms[s].user := v;
      syms[s].wasSet := mark;
    }

    method PutChoiceUser(c: nat, v: Option<Tri>, picked: Option<nat>, mark: bool)
      requires Shape() && c < |choices|
      modifies choices[c]
      ensures Now() == WithMode(old(Now()), c, v, picked, mark)
    {
      choices[c].user := v;
      choices[c].picked := picked;
      choices[c].wasSet := mark;
    }

    ghost function WithUser(w: State, s: nat, v: Option<Value>, mark: bool): State
      requires s < |w.syms|
    {
      WithSym(w, s, w.syms[s].(user := v, wasSet := mark))
    }

    ghost function WithMode(w: State, c: nat, v: Option<Tri>, picked: Option<nat>, mark: bool): State
      requires c < |w.choices|
    {
      WithChoice(w, c, w.choices[c].(user := v, picked := picked, wasSet := mark))
    }

    lemma UserChanges(w: State, s: nat, v: Option<Value>, mark: bool)
      requires Shape() && Fits(k, w) && PicksMembers(k, w) && s < |syms|
      ensures var w1, g := WithUser(w, s, v, mark), SettingsOf(w);
              && SameCaches(w, w1) && PicksMembers(k, w1)
              && (forall i | 0 <= i < |w.syms| && i != s :: w1.syms[i] == w.syms[i])
              && w1.choices == w.choices
              && SettingsOf(w1) == g.(values := g.values[s := v], symSet := g.symSet[s := mark])
    {
    }

    lemma ModeChanges(w: State, c: nat, v: Option<Tri>, picked: Option<nat>, mark: bool)
      requires Shape() && Fits(k, w) && PicksMembers(k, w) && c < |choices|
      requires picked.Some? ==> picked.value in k.choices[c].syms
      ensures var w1, g := WithMode(w, c, v, picked, mark), SettingsOf(w);
              && SameCaches(w, w1) && PicksMembers(k, w1)
              && (forall i | 0 <= i < |w.choices| && i != c :: w1.choices[i] == w.choices[i])
              && w1.syms == w.syms
              && SettingsOf(w1) == g.(modes := g.modes[c := v], picks := g.picks[c := picked],
                                      choiceSet := g.choiceSet[c := mark])
    {
    }

    /** Replaces the user value of a symbol and drops what may depend on it. */
    method StoreValue(s: nat, v: Option<Value>, mark: bool)
      requires Valid() && Linked(k, Now()) && s < |syms|
      modifies syms, choices
      ensures Valid() && Linked(k, Now())
      ensures var g := SettingsOf(old(Now()));
              SettingsOf(Now()) == g.(values := g.values[s := v], symSet := g.symSet[s := mark])
    {
      ghost var w := Now();
      PutUser(s, v, mark);
      ghost var w1 := WithUser(w, s, v, mark);
      UserChanges(w, s, v, mark);
      SameLinks(w, w1);
      ghost var gone := RecInvalidateIfHasPrompt(s);
      Restored(w, w1, Now(), gone);
    }

    /** Replaces the user mode and selection of a choice and drops what may depend on them. */
    method StoreMode(c: nat, v: Option<Tri>, picked: Option<nat>, mark: bool)
      requires Valid() && Linked(k, Now()) && c < |choices|
      requires picked.Some? ==> picked.value in k.choices[c].syms
      modifies syms, choices
      ensures Valid() && Linked(k, Now())
      ensures var g := SettingsOf(old(Now()));
              SettingsOf(Now()) == g.(modes := g.modes[c := v], picks := g.picks[c := picked],
                                      choiceSet := g.choiceSet[c := mark])
    {
      ghost var w := Now();
      PutChoiceUser(c, v, picked, mark);
      ghost var w1 := WithMode(w, c, v, picked, mark);
      ModeChanges(w, c, v, picked, mark);
      SameLinks(w, w1);
      ghost var gone := RecInvalidate(IChoice(c));
      Restored(w, w1, Now(), gone);
    }

    /** Changes only the mark of a symbol, so nothing has to be dropped. */
    method MarkSym(s: nat, mark: bool)
      requires Valid() && Linked(k, Now()) && s < |syms|
      modifies syms, choices
      ensures Valid() && Linked(k, Now())
      ensures SettingsOf(Now()) == SettingsOf(old(Now())).(symSet := SettingsOf(old(Now())).symSet[s := mark])
    {
      ghost var w := Now();
      PutUser(s, syms[s].user, mark);
      UserChanges(w, s, w.syms[s].user, mark);
      Restored(w, Now(), Now(), {});
    }

    method MarkChoice(c: nat, mark: bool)
      requires Valid() && Linked(k, Now()) && c < |choices|
      modifies syms, choices
      ensures Valid() && Linked(k, Now())
      ensures SettingsOf(Now()) == SettingsOf(old(Now())).(choiceSet := SettingsOf(old(Now())).choiceSet[c := mark])
    {
      ghost var w := Now();
      PutChoiceUser(c, choices[c].user, choices[c].picked, mark);
      ModeChanges(w, c, w.choices[c].user, w.choices[c].picked, mark);
      Restored(w, Now(), Now(), {});
    }

    /** Stores y on a choice symbol, which makes it the user selection of its choice. */
    method StorePick(s: nat, c: nat, v: Value)
      requires Valid() && Linked(k, Now()) && s < |syms| && c < |choices| && k.syms[s].choice == Some(c)
      modifies syms, choices
      ensures Valid() && Linked(k, Now())
      ensures var g := SettingsOf(old(Now()));
              SettingsOf(Now()) == g.(values := g.values[s := Some(v)], symSet := g.symSet[s := true],
                                      picks := g.picks[c := Some(s)], choiceSet := g.choiceSet[c := true])
    {
      ghost var w := Now();
      PutPick(s, c, v);
      ghost var w1 := WithPick(w, s, c, v);
      PickChanges(w, s, c, v);
      SameLinks(w, w1);
      ghost var gone := RecInvalidate(IChoice(c));
      Restored(w, w1, Now(), gone);
    }

    ghost function WithPick(w: State, s: nat, c: nat, v: Value): State
      requires s < |w.syms| && c < |w.choices|
    {
      WithChoice(WithSym(w, s, w.syms[s].(user := Some(v), wasSet := true)), c,
                 w.choices[c].(picked := Some(s), wasSet := true))
    }

    method PutPick(s: nat, c: nat, v: Value)
      requires Shape() && s < |syms| && c < |choices|
      modifies syms[s], choices[c]
      ensures Now() == WithPick(old(Now()), s, c, v)
    {
      syms[s].user := Some(v);
      syms[s].wasSet := true;
      choices[c].picked := Some(s);
      choices[c].wasSet := true;
    }

    lemma PickChanges(w: State, s: nat, c: nat, v: Value)
      requires Shape() && Fits(k, w) && PicksMembers(k, w) && s < |syms| && c < |choices| && k.syms[s].choice == Some(c)
      ensures var w1 := WithPick(w, s, c, v);
              && SameCaches(w, w1) && PicksMembers(k, w1)
              && (forall i | 0 <= i < |w.syms| && i != s :: w1.syms[i] == w.syms[i])
              && (forall i | 0 <= i < |w.choices| && i != c :: w1.choices[i] == w.choices[i])
              && SettingsOf(w1) == SettingsOf(w).(
                   values := SettingsOf(w).values[s := Some(v)], symSet := SettingsOf(w).symSet[s := true],
                   picks := SettingsOf(w).picks[c := Some(s)], choiceSet := SettingsOf(w).choiceSet[c := true])
    {
    }

    method SetValue(s: nat, value: Value) returns (ok: bool)
      requires Valid() && Linked(k, Now()) && s < |syms|
      modifies syms, choices
      ensures Valid() && Linked(k, Now())
      ensures SymWellFormed(k, k.syms[s]) && SettingsOf(Now()) == SetSym(k, SettingsOf(old(Now())), s, value)
      ensures ok <==> Accepted(k, SettingsOf(old(Now())), s, value)
    {
      assert SymWellFormed(k, k.syms[s]);
      var d := k.syms[s];
      var v := Normalized(d.kind, value);
      ok := true;
      if syms[s].user == Some(v) && d.choice.None? {
        MarkSym(s, true);
      } else if !ValidFor(k, d.kind, v) {
        ok := false;
      } else if d.choice.Some? && v == Num(2) {
        StorePick(s, d.choice.value, v);
      } else {
        StoreValue(s, Some(v), true);
      }
    }

    method UnsetValue(s: nat)
      requires Valid() && Linked(k, Now()) && s < |syms|
      modifies syms, choices
      ensures Valid() && Linked(k, Now())
      ensures SettingsOf(Now()) == UnsetSym(k, SettingsOf(old(Now())), s)
    {
      if syms[s].user.Some? {
        StoreValue(s, None, syms[s].wasSet);
      }
    }

    method SetChoiceValue(c: nat, v: Tri) returns (ok: bool)
      requires Valid() && Linked(k, Now()) && c < |choices|
      modifies syms, choices
      ensures Valid() && Linked(k, Now())
      ensures SettingsOf(Now()) == SetMode(k, SettingsOf(old(Now())), c, v)
      ensures ok <==> ModeAccepted(k, SettingsOf(old(Now())), c, v)
    {
      ok := true;
      if choices[c].user == Some(v) {
        MarkChoice(c, true);
      } else if !ModeAssignable(k.choices[c].kind, v) {
        ok := false;
      } else {
        StoreMode(c, Some(v), choices[c].picked, true);
      }
    }

    method UnsetChoiceValue(c: nat)
      requires Valid() && Linked(k, Now()) && c < |choices|
      modifies syms, choices
      ensures Valid() && Linked(k, Now())
      ensures SettingsOf(Now()) == UnsetChoice(k, SettingsOf(old(Now())), c)
    {
      if choices[c].user.Some? || choices[c].picked.Some? {
        StoreMode(c, None, None, choices[c].wasSet);
      }
    }

    // ---- Construction ----

    /** A fresh configuration: no settings, nothing cached, dependents recorded. */
    constructor (k: Kconf, ghost rank: Item -> nat, ghost top: nat)
      requires WellFormed(k) && Ranked(k, rank, top)
      ensures this.k == k && this.rank == rank && this.top == top
      ensures Valid() && Linked(k, Now())
      ensures fresh(syms) && fresh(choices)
      ensures SettingsOf(Now()) == NoSettings(k)
    {
      var ss := NewSymbols(|k.syms|);
      var cs := NewChoices(|k.choices|);
      this.k, this.rank, this.top := k, rank, top;
      syms, choices := ss, cs;
      new;
      ghost var w := Now();
      BuildDep();
      AddChoiceDeps(w);
      LinkedToAll(k, w, Now());
      NewStateCached(k, w, Now());
    }
  }

  /** Recording the dependents of a new state leaves it without settings and without cached values. */
  lemma NewStateCached(k: Kconf, w: State, w': State)
    requires LinkedTo(k, w, w', |k.syms|, |k.choices|, |k.choices|)
    requires forall s | 0 <= s < |w.syms| :: w.syms[s] == NewSymState
    requires forall c | 0 <= c < |w.choices| :: w.choices[c] == NewChoiceState
    ensures Justified(k, w') && PicksMembers(k, w') && SettingsOf(w') == NoSettings(k)
  {
    NothingCachedJustified(k, w');
  }

  method NewSymbols(n: nat) returns (ss: seq<SymbolCell>)
    ensures |ss| == n && fresh(ss)
    ensures forall i, j | 0 <= i < j < n :: ss[i] != ss[j]
    ensures forall i | 0 <= i < n :: ss[i].Now() == NewSymState
  {
    ss := [];
    while |ss| < n
      invariant |ss| <= n && fresh(ss)
      invariant forall i, j | 0 <= i < j < |ss| :: ss[i] != ss[j]
      invariant forall i | 0 <= i < |ss| :: ss[i].Now() == NewSymState
    {
      var x := new SymbolCell();
      ss := ss + [x];
    }
  }

  method NewChoices(n: nat) returns (cs: seq<ChoiceCell>)
    ensures |cs| == n && fresh(cs)
    ensures forall i, j | 0 <= i < j < n :: cs[i] != cs[j]
    ensures forall i | 0 <= i < n :: cs[i].Now() == NewChoiceState
  {
    cs := [];
    while |cs| < n
      invariant |cs| <= n && fresh(cs)
      invariant forall i, j | 0 <= i < j < |cs| :: cs[i] != cs[j]
      invariant forall i | 0 <= i < |cs| :: cs[i].Now() == NewChoiceState
    {
      var x := new ChoiceCell();
      cs := cs + [x];
    }
  }

  const NewSymState := SymState(None, None, None, None, None, false, false, {})
  const NewChoiceState := ChoiceState(None, None, None, None, None, false, {})
}
