/**
  Evaluation without a cache.  `Fresh(k, u, d)` holds what a recursion that may
  nest d calls computes from the user settings alone; an entry is missing when
  d calls were not enough.  On a ranked tree a fixed depth is enough for every
  item, so the mutual recursion between values, visibilities, modes and
  selections always ends.
 */
module KconfigFresh {
  import opened Common
  import opened KconfigModel
  import opened KconfigReads
  import opened KconfigValues

  function BlankSym(x: SymState): SymState {
    x.(vis := None, tri := None, str := None, asn := None)
  }

  function BlankChoice(x: ChoiceState): ChoiceState {
    x.(vis := None, sel := None, asn := None)
  }

  function Blank(u: State): State {
    State(seq(|u.syms|, i requires 0 <= i < |u.syms| => BlankSym(u.syms[i])),
          seq(|u.choices|, i requires 0 <= i < |u.choices| => BlankChoice(u.choices[i])))
  }

  function StepSym(k: Kconf, w: State, s: nat): SymState
    requires Fits(k, w) && s < |k.syms|
  {
    var d, x := k.syms[s], w.syms[s];
    if BoolLike(d.kind) then
      var v := SymTri(k, w, s);
      x.(vis := SymVis(k, w, s),
         tri := if v.Some? then Some(v.value.0) else None,
         str := if v.Some? then Some(TriName(v.value.0)) else None,
         asn := SymAsn(k, w, s),
         write := v.Some? && v.value.1)
    else if d.kind == Unknown then
      x.(vis := SymVis(k, w, s), tri := Some(0), str := Some(d.name), asn := Some([]), write := false)
    else
      var v := SymStr(k, w, s);
      x.(vis := SymVis(k, w, s),
         tri := Some(0),
         str := if v.Some? then Some(v.value.0) else None,
         asn := Some([]),
         write := v.Some? && v.value.1)
  }

  function StepChoice(k: Kconf, w: State, c: nat): ChoiceState
    requires Fits(k, w) && c < |k.choices|
  {
    w.choices[c].(vis := ChoiceVis(k, w, c), sel := ChoiceSel(k, w, c), asn := ChoiceAsn(k, w, c))
  }

  function Step(k: Kconf, w: State): State
    requires Fits(k, w)
  {
    State(seq(|k.syms|, i requires 0 <= i < |k.syms| => StepSym(k, w, i)),
          seq(|k.choices|, i requires 0 <= i < |k.choices| => StepChoice(k, w, i)))
  }

  function Fresh(k: Kconf, u: State, depth: nat): (w: State)
    requires Fits(k, u)
    ensures Fits(k, w)
    ensures SameUser(u, w)
    decreases depth
  {
    if depth == 0 then Blank(u) else Step(k, Fresh(k, u, depth - 1))
  }

  // ---- Deeper recursions know more ----

  lemma StepMonotone(k: Kconf, w: State, w': State)
    requires WellFormed(k) && Agrees(k, w, w')
    ensures Agrees(k, Step(k, w), Step(k, w'))
  {
    AgreesKeeps(k, w, w');
    forall s | 0 <= s < |k.syms| ensures SymAgrees(k, Step(k, w), Step(k, w'), s) {
      assert SymWellFormed(k, k.syms[s]);
      if SymVis(k, w, s).Some? { SymVisKept(k, w, w', s); }
      if SymTri(k, w, s).Some? { SymTriKept(k, w, w', s); }
      if SymStr(k, w, s).Some? { SymStrKept(k, w, w', s); }
      if SymAsn(k, w, s).Some? { SymAsnKept(k, w, w', s); }
    }
    forall c | 0 <= c < |k.choices| ensures ChoiceAgrees(Step(k, w), Step(k, w'), c) {
      StepChoiceMonotone(k, w, w', c);
    }
  }

  lemma StepChoiceMonotone(k: Kconf, w: State, w': State, c: nat)
    requires WellFormed(k) && Agrees(k, w, w') && c < |k.choices|
    ensures ChoiceAgrees(Step(k, w), Step(k, w'), c)
  {
    AgreesKeeps(k, w, w');
    assert ChoiceAgrees(w, w', c);
    if ChoiceVis(k, w, c).Some? { ChoiceVisKept(k, w, w', c); }
    if ChoiceAsn(k, w, c).Some? { ChoiceAsnKept(k, w, w', c); }
    var p := w.choices[c].picked;
    if p.Some? { PickedKept(k, w, w', p.value); }
    if ChoiceSel(k, w, c).Some? { ChoiceSelKept(k, w, w', c); }
  }

  lemma PickedKept(k: Kconf, w: State, w': State, s: nat)
    requires Agrees(k, w, w')
    ensures KeepsVis(w, w', s)
  {
    if s < |k.syms| { assert SymAgrees(k, w, w', s); }
  }

  /** One more call only adds entries. */
  ghost predicate Growing(k: Kconf, w: State, w': State) {
    Fits(k, w) && w' == Step(k, w) && Agrees(k, w, w')
  }

  lemma NextGrowing(k: Kconf, w: State, w': State, w'': State)
    requires WellFormed(k) && Growing(k, w, w') && w'' == Step(k, w')
    ensures Growing(k, w', w'')
  {
    StepMonotone(k, w, w');
  }

  lemma BlankGrows(k: Kconf, u: State)
    requires Fits(k, u)
    ensures Growing(k, Blank(u), Step(k, Blank(u)))
  {
    var w, w' := Blank(u), Step(k, Blank(u));
    assert Fits(k, w);
    forall s | 0 <= s < |k.syms| ensures SymAgrees(k, w, w', s) {
      assert w.syms[s] == BlankSym(u.syms[s]);
    }
    forall c | 0 <= c < |k.choices| ensures ChoiceAgrees(w, w', c) {
      assert w.choices[c] == BlankChoice(u.choices[c]);
    }
  }

  lemma FreshNext(k: Kconf, u: State, depth: nat)
    requires Fits(k, u)
    ensures Fresh(k, u, depth + 1) == Step(k, Fresh(k, u, depth))
  {
  }

  lemma {:induction false} FreshGrows(k: Kconf, u: State, depth: nat)
    requires WellFormed(k) && Fits(k, u)
    ensures Growing(k, Fresh(k, u, depth), Fresh(k, u, depth + 1))
    decreases depth
  {
    var w' := Fresh(k, u, depth);
    FreshNext(k, u, depth);
    if depth == 0 {
      BlankGrows(k, u);
    } else {
      FreshGrows(k, u, depth - 1);
      NextGrowing(k, Fresh(k, u, depth - 1), w', Step(k, w'));
    }
  }

  lemma StepSymJustified(k: Kconf, w: State, w': State, s: nat)
    requires WellFormed(k) && Growing(k, w, w') && s < |k.syms|
    ensures SymJustified(k, w', s)
  {
    AgreesKeeps(k, w, w');
    assert SymWellFormed(k, k.syms[s]);
    assert w'.syms[s] == StepSym(k, w, s);
    if SymVis(k, w, s).Some? { SymVisKept(k, w, w', s); }
    if SymTri(k, w, s).Some? { SymTriKept(k, w, w', s); }
    if SymStr(k, w, s).Some? { SymStrKept(k, w, w', s); }
    if SymAsn(k, w, s).Some? { SymAsnKept(k, w, w', s); }
  }

  lemma StepChoiceJustified(k: Kconf, w: State, w': State, c: nat)
    requires WellFormed(k) && Growing(k, w, w') && c < |k.choices|
    ensures ChoiceJustified(k, w', c)
  {
    AgreesKeeps(k, w, w');
    assert w'.choices[c] == StepChoice(k, w, c);
    assert ChoiceAgrees(w, w', c);
    if ChoiceVis(k, w, c).Some? { ChoiceVisKept(k, w, w', c); }
    if ChoiceAsn(k, w, c).Some? { ChoiceAsnKept(k, w, w', c); }
    var p := w.choices[c].picked;
    if p.Some? { PickedKept(k, w, w', p.value); }
    if ChoiceSel(k, w, c).Some? { ChoiceSelKept(k, w, w', c); }
  }

  /** Every entry that one more call finds is justified by the entries it finds. */
  lemma StepJustified(k: Kconf, w: State, w': State)
    requires WellFormed(k) && Growing(k, w, w')
    ensures Justified(k, w')
  {
    forall s | 0 <= s < |k.syms| ensures SymJustified(k, w', s) { StepSymJustified(k, w, w', s); }
    forall c | 0 <= c < |k.choices| ensures ChoiceJustified(k, w', c) { StepChoiceJustified(k, w, w', c); }
  }

  lemma FreshJustified(k: Kconf, u: State, depth: nat)
    requires WellFormed(k) && Fits(k, u)
    ensures Justified(k, Fresh(k, u, depth))
  {
    TableJustified(k, u, depth, Fresh(k, u, depth));
  }

  lemma TableJustified(k: Kconf, u: State, depth: nat, w: State)
    requires WellFormed(k) && Fits(k, u) && w == Fresh(k, u, depth)
    ensures Justified(k, w)
  {
    if depth == 0 {
      BlankJustified(k, u, w);
    } else {
      var before := OneCallLess(k, u, depth - 1, w);
      StepJustified(k, before, w);
    }
  }

  lemma OneCallLess(k: Kconf, u: State, depth: nat, w: State) returns (before: State)
    requires WellFormed(k) && Fits(k, u) && w == Fresh(k, u, depth + 1)
    ensures Growing(k, before, w)
  {
    before := Fresh(k, u, depth);
    FreshGrows(k, u, depth);
  }

  lemma BlankJustified(k: Kconf, u: State, w: State)
    requires Fits(k, u) && w == Blank(u)
    ensures Justified(k, w)
  {
    assert forall s | 0 <= s < |k.syms| :: w.syms[s] == BlankSym(u.syms[s]);
    assert forall c | 0 <= c < |k.choices| :: w.choices[c] == BlankChoice(u.choices[c]);
  }

  // ---- A rule whose inputs are all known succeeds ----

  ghost predicate Has(k: Kconf, w: State, z: Item) {
    match z
    case ISym(s) => s < |k.syms| && s < |w.syms| && w.syms[s].tri.Some? && w.syms[s].str.Some?
    case IChoice(c) =>
      && c < |k.choices| && c < |w.choices| && w.choices[c].vis.Some?
      && (k.choices[c].kind == Tristate ==> HasModules(k, w))
  }

  ghost predicate HasModules(k: Kconf, w: State) {
    TriOf(k, w, k.modules).Some?
  }

  lemma {:induction false} ExprHas(k: Kconf, w: State, e: Expr)
    requires forall z | Mentions(e, z) :: Has(k, w, z)
    ensures ExprVal(k, w, e).Some?
  {
    match e
    case Use(o) => if o.Sym? { assert Mentions(e, ISym(o.s)); }
    case Mode(c) => assert Mentions(e, IChoice(c));
    case And(l, r) => ExprHas(k, w, l); ExprHas(k, w, r);
    case Or(l, r) => ExprHas(k, w, l); ExprHas(k, w, r);
    case Not(x) => ExprHas(k, w, x);
    case Rel(_, a, b) =>
      if a.Sym? { assert Mentions(e, ISym(a.s)); }
      if b.Sym? { assert Mentions(e, ISym(b.s)); }
  }

  lemma {:induction false} FirstActiveHas<T>(k: Kconf, w: State, gs: seq<Guarded<T>>, i: nat)
    requires i <= |gs|
    requires forall z | CondsMention(gs, z) :: Has(k, w, z)
    ensures FirstActive(k, w, gs, i).Some?
    decreases |gs| - i
  {
    if i < |gs| {
      forall z | Mentions(gs[i].cond, z) ensures Has(k, w, z) { assert CondsMention(gs, z); }
      ExprHas(k, w, gs[i].cond);
      FirstActiveHas(k, w, gs, i + 1);
    }
  }

  lemma {:induction false} PromptVisHas(k: Kconf, w: State, prompts: seq<Expr>, n: nat)
    requires n <= |prompts|
    requires forall z | PromptsMention(prompts, z) :: Has(k, w, z)
    ensures PromptVis(k, w, prompts, n).Some?
  {
    if n > 0 {
      PromptVisHas(k, w, prompts, n - 1);
      forall z | Mentions(prompts[n - 1], z) ensures Has(k, w, z) { assert PromptsMention(prompts, z); }
      ExprHas(k, w, prompts[n - 1]);
    }
  }

  /** All inputs of the rules of one symbol, except its own entries. */
  ghost predicate HasSymInputs(k: Kconf, w: State, s: nat)
    requires s < |k.syms|
  {
    && (forall z | SymMentions(k.syms[s], z) :: Has(k, w, z))
    && (k.syms[s].kind == Tristate ==> HasModules(k, w))
    && (k.syms[s].choice.Some? ==> Has(k, w, IChoice(k.syms[s].choice.value)))
  }

  ghost predicate HasChoiceInputs(k: Kconf, w: State, c: nat)
    requires c < |k.choices|
  {
    && (forall z | ChoiceMentions(k.choices[c], z) :: Has(k, w, z))
    && (k.choices[c].kind == Tristate ==> HasModules(k, w))
  }

  lemma ChoiceVisHas(k: Kconf, w: State, c: nat)
    requires c < |k.choices| && HasChoiceInputs(k, w, c)
    ensures ChoiceVis(k, w, c).Some?
  {
    PromptVisHas(k, w, k.choices[c].prompts, |k.choices[c].prompts|);
  }

  lemma SymVisHas(k: Kconf, w: State, s: nat)
    requires s < |k.syms| && HasSymInputs(k, w, s)
    ensures SymVis(k, w, s).Some?
  {
    PromptVisHas(k, w, k.syms[s].prompts, |k.syms[s].prompts|);
  }

  lemma {:induction false} DefaultSelHas(k: Kconf, w: State, ds: seq<Guarded<nat>>, i: nat)
    requires i <= |ds|
    requires forall z | CondsMention(ds, z) :: Has(k, w, z)
    requires forall j | 0 <= j < |ds| :: VisOf(w, ds[j].item).Some?
    ensures DefaultSel(k, w, ds, i).Some?
    decreases |ds| - i
  {
    if i < |ds| {
      forall z | Mentions(ds[i].cond, z) ensures Has(k, w, z) { assert CondsMention(ds, z); }
      ExprHas(k, w, ds[i].cond);
      DefaultSelHas(k, w, ds, i + 1);
    }
  }

  lemma {:induction false} FirstVisibleHas(w: State, ss: seq<nat>, i: nat)
    requires i <= |ss| && forall j | 0 <= j < |ss| :: VisOf(w, ss[j]).Some?
    ensures FirstVisible(w, ss, i).Some?
    decreases |ss| - i
  {
    if i < |ss| { FirstVisibleHas(w, ss, i + 1); }
  }

  lemma ChoiceSelHas(k: Kconf, w: State, c: nat)
    requires c < |k.choices| && c < |w.choices| && HasChoiceInputs(k, w, c) && Has(k, w, IChoice(c))
    requires forall j | 0 <= j < |k.choices[c].syms| :: VisOf(w, k.choices[c].syms[j]).Some?
    requires forall j | 0 <= j < |k.choices[c].defaults| :: VisOf(w, k.choices[c].defaults[j].item).Some?
    requires w.choices[c].picked.Some? ==> VisOf(w, w.choices[c].picked.value).Some?
    ensures ChoiceSel(k, w, c).Some?
  {
    DefaultSelHas(k, w, k.choices[c].defaults, 0);
    FirstVisibleHas(w, k.choices[c].syms, 0);
  }

  lemma DefaultTriHas(k: Kconf, w: State, s: nat)
    requires s < |k.syms| && HasSymInputs(k, w, s)
    ensures DefaultTri(k, w, k.syms[s].defaults).Some?
  {
    var ds := k.syms[s].defaults;
    FirstActiveHas(k, w, ds, 0);
    var i := FirstActive(k, w, ds, 0).value;
    if i < |ds| {
      forall z | Mentions(ds[i].cond, z) ensures Has(k, w, z) { assert CondsMention(ds, z); }
      forall z | Mentions(ds[i].item, z) ensures Has(k, w, z) { assert DefaultsMention(ds, z); }
      ExprHas(k, w, ds[i].cond);
      ExprHas(k, w, ds[i].item);
    }
  }

  lemma SymTriHas(k: Kconf, w: State, s: nat)
    requires s < |k.syms| && s < |w.syms| && HasSymInputs(k, w, s) && w.syms[s].vis.Some?
    requires k.syms[s].choice.Some? ==> SelOf(w, k.syms[s].choice.value).Some?
    ensures SymTri(k, w, s).Some?
    ensures SymAsn(k, w, s).Some?
  {
    DefaultTriHas(k, w, s);
    ExprHas(k, w, k.syms[s].revDep);
    ExprHas(k, w, k.syms[s].weakRevDep);
    ExprHas(k, w, k.syms[s].directDep);
  }

  lemma DefaultStrHas(k: Kconf, w: State, s: nat)
    requires s < |k.syms| && HasSymInputs(k, w, s)
    requires forall i | 0 <= i < |k.syms[s].defaults| :: k.syms[s].defaults[i].item.Use?
    ensures DefaultStr(k, w, k.syms[s].defaults).Some?
  {
    var ds := k.syms[s].defaults;
    FirstActiveHas(k, w, ds, 0);
    var i := FirstActive(k, w, ds, 0).value;
    if i < |ds| {
      forall z | NamesSym(ds[i].item.o, z) ensures Has(k, w, z) {
        assert Mentions(ds[i].item, z);
        assert DefaultsMention(ds, z);
      }
      BoundHas(k, w, ds[i].item.o);
    }
  }

  lemma SymStrHas(k: Kconf, w: State, s: nat)
    requires s < |k.syms| && s < |w.syms| && HasSymInputs(k, w, s) && w.syms[s].vis.Some?
    requires forall i | 0 <= i < |k.syms[s].defaults| :: k.syms[s].defaults[i].item.Use?
    ensures SymStr(k, w, s).Some?
  {
    var d := k.syms[s];
    DefaultStrHas(k, w, s);
    FirstActiveHas(k, w, d.ranges, 0);
    var j := FirstActive(k, w, d.ranges, 0).value;
    if j < |d.ranges| {
      forall z | NamesSym(d.ranges[j].item.0, z) || NamesSym(d.ranges[j].item.1, z) ensures Has(k, w, z) {
        assert BoundsMention(d.ranges, z);
      }
      BoundHas(k, w, d.ranges[j].item.0);
      BoundHas(k, w, d.ranges[j].item.1);
    }
  }

  lemma BoundHas(k: Kconf, w: State, o: Operand)
    requires forall z | NamesSym(o, z) :: Has(k, w, z)
    ensures StrOf(k, w, o).Some?
  {
    if o.Sym? { assert NamesSym(o, ISym(o.s)); }
  }

  // ---- Depth 4 * (rank + 1) is enough ----

  /** Everything ranked below r is known. */
  ghost predicate FullBelow(k: Kconf, rank: Item -> nat, w: State, r: nat)
    requires Fits(k, w)
  {
    && (forall s | 0 <= s < |k.syms| && rank(ISym(s)) < r :: SymFull(w.syms[s]))
    && (forall c | 0 <= c < |k.choices| && rank(IChoice(c)) < r :: ChoiceFull(w.choices[c]))
  }

  lemma FullStays(k: Kconf, rank: Item -> nat, w: State, w': State, r: nat)
    requires Agrees(k, w, w') && FullBelow(k, rank, w, r)
    ensures FullBelow(k, rank, w', r)
  {
    forall s | 0 <= s < |k.syms| && rank(ISym(s)) < r ensures SymFull(w'.syms[s]) {
      assert SymAgrees(k, w, w', s);
    }
    forall c | 0 <= c < |k.choices| && rank(IChoice(c)) < r ensures ChoiceFull(w'.choices[c]) {
      assert ChoiceAgrees(w, w', c);
    }
  }

  lemma LowerHas(k: Kconf, rank: Item -> nat, top: nat, w: State, r: nat, z: Item)
    requires WellFormed(k) && Ranked(k, rank, top) && Fits(k, w) && FullBelow(k, rank, w, r)
    requires InTree(k, z) && rank(z) < r
    ensures Has(k, w, z)
  {
    match z
    case ISym(s) => assert SymFull(w.syms[s]);
    case IChoice(c) =>
      assert ChoiceFull(w.choices[c]) && ChoiceRanked(k, rank, c);
      if k.choices[c].kind == Tristate { ModulesKnown(k, rank, w, r); }
  }

  lemma ModulesKnown(k: Kconf, rank: Item -> nat, w: State, r: nat)
    requires WellFormed(k) && Fits(k, w) && FullBelow(k, rank, w, r)
    requires k.modules.Sym? ==> rank(ISym(k.modules.s)) < r
    ensures HasModules(k, w)
  {
    if k.modules.Sym? { assert SymFull(w.syms[k.modules.s]); }
  }

  lemma ChoiceInputsKnown(k: Kconf, rank: Item -> nat, top: nat, w: State, c: nat)
    requires WellFormed(k) && Ranked(k, rank, top) && Fits(k, w) && c < |k.choices|
    requires FullBelow(k, rank, w, rank(IChoice(c)))
    ensures HasChoiceInputs(k, w, c)
  {
    var r := rank(IChoice(c));
    assert ChoiceRanked(k, rank, c);
    forall z | ChoiceMentions(k.choices[c], z) ensures Has(k, w, z) { LowerHas(k, rank, top, w, r, z); }
    if k.choices[c].kind == Tristate { ModulesKnown(k, rank, w, r); }
  }

  lemma SymInputsKnown(k: Kconf, rank: Item -> nat, top: nat, w: State, s: nat)
    requires WellFormed(k) && Ranked(k, rank, top) && Fits(k, w) && s < |k.syms|
    requires FullBelow(k, rank, w, rank(ISym(s)))
    requires k.syms[s].choice.Some? ==> w.choices[k.syms[s].choice.value].vis.Some?
    ensures HasSymInputs(k, w, s)
  {
    var r, d := rank(ISym(s)), k.syms[s];
    assert SymRanked(k, rank, s) && SymWellFormed(k, d);
    if d.kind == Tristate { ModulesKnown(k, rank, w, r); }
    if d.choice.Some? {
      assert ChoiceRanked(k, rank, d.choice.value);
      if k.choices[d.choice.value].kind == Tristate { ModulesKnown(k, rank, w, r); }
    }
    forall z | SymMentions(d, z) ensures Has(k, w, z) {
      if rank(z) < r { LowerHas(k, rank, top, w, r, z); }
    }
  }

  lemma ChoiceVisCompletes(k: Kconf, rank: Item -> nat, top: nat, w: State, w1: State, c: nat)
    requires WellFormed(k) && Ranked(k, rank, top) && Growing(k, w, w1) && c < |k.choices|
    requires FullBelow(k, rank, w, rank(IChoice(c)))
    ensures w1.choices[c].vis.Some?
    ensures Has(k, w1, IChoice(c))
  {
    ChoiceInputsKnown(k, rank, top, w, c);
    ChoiceVisHas(k, w, c);
    FullStays(k, rank, w, w1, rank(IChoice(c)));
    assert ChoiceRanked(k, rank, c);
    if k.choices[c].kind == Tristate { ModulesKnown(k, rank, w1, rank(IChoice(c))); }
  }

  /** A choice in the second call: its visibility and mode are known. */
  lemma ChoiceVisStays(k: Kconf, w: State, w': State, c: nat)
    requires Agrees(k, w, w') && c < |k.choices| && Has(k, w, IChoice(c))
    ensures Has(k, w', IChoice(c))
  {
    assert ChoiceAgrees(w, w', c);
    if k.modules.Sym? && k.modules.s < |k.syms| { assert SymAgrees(k, w, w', k.modules.s); }
  }

  lemma SymVisCompletes(k: Kconf, rank: Item -> nat, top: nat, w: State, w1: State, w2: State, s: nat)
    requires WellFormed(k) && Ranked(k, rank, top) && Growing(k, w, w1) && Growing(k, w1, w2) && s < |k.syms|
    requires FullBelow(k, rank, w, rank(ISym(s)))
    ensures w2.syms[s].vis.Some?
  {
    assert SymRanked(k, rank, s) && SymWellFormed(k, k.syms[s]);
    if k.syms[s].choice.Some? { ChoiceVisCompletes(k, rank, top, w, w1, k.syms[s].choice.value); }
    FullStays(k, rank, w, w1, rank(ISym(s)));
    SymInputsKnown(k, rank, top, w1, s);
    SymVisHas(k, w1, s);
    assert w2.syms[s] == StepSym(k, w1, s);
  }

  lemma MemberVisCompletes(k: Kconf, rank: Item -> nat, top: nat, w: State, w1: State, w2: State, c: nat, s: nat)
    requires WellFormed(k) && Ranked(k, rank, top) && Growing(k, w, w1) && Growing(k, w1, w2)
    requires c < |k.choices| && s in k.choices[c].syms
    requires FullBelow(k, rank, w, rank(IChoice(c)))
    ensures VisOf(w2, s).Some?
  {
    assert ChoiceWellFormed(k, c);
    var i :| 0 <= i < |k.choices[c].syms| && k.choices[c].syms[i] == s;
    assert SymRanked(k, rank, s);
    SymVisCompletes(k, rank, top, w, w1, w2, s);
  }

  lemma ChoiceSelCompletes(k: Kconf, rank: Item -> nat, top: nat, w: State, w1: State, w2: State, w3: State, c: nat)
    requires WellFormed(k) && Ranked(k, rank, top) && PicksMembers(k, w) && c < |k.choices|
    requires Growing(k, w, w1) && Growing(k, w1, w2) && Growing(k, w2, w3)
    requires FullBelow(k, rank, w, rank(IChoice(c)))
    ensures w3.choices[c].sel.Some?
  {
    var r := rank(IChoice(c));
    FullStays(k, rank, w, w1, r);
    FullStays(k, rank, w1, w2, r);
    ChoiceVisCompletes(k, rank, top, w, w1, c);
    ChoiceVisStays(k, w1, w2, c);
    ChoiceInputsKnown(k, rank, top, w2, c);
    assert ChoiceWellFormed(k, c);
    forall j | 0 <= j < |k.choices[c].syms| ensures VisOf(w2, k.choices[c].syms[j]).Some? {
      MemberVisCompletes(k, rank, top, w, w1, w2, c, k.choices[c].syms[j]);
    }
    forall j | 0 <= j < |k.choices[c].defaults| ensures VisOf(w2, k.choices[c].defaults[j].item).Some? {
      MemberVisCompletes(k, rank, top, w, w1, w2, c, k.choices[c].defaults[j].item);
    }
    if w.choices[c].picked.Some? { MemberVisCompletes(k, rank, top, w, w1, w2, c, w.choices[c].picked.value); }
    ChoiceSelHas(k, w2, c);
    assert w3.choices[c] == StepChoice(k, w2, c);
  }

  ghost predicate FourCalls(k: Kconf, w: State, w1: State, w2: State, w3: State, w4: State) {
    Growing(k, w, w1) && Growing(k, w1, w2) && Growing(k, w2, w3) && Growing(k, w3, w4)
  }

  lemma ChoiceAsnHas(k: Kconf, w: State, c: nat)
    requires c < |k.choices| && c < |w.choices| && Has(k, w, IChoice(c))
    ensures ChoiceAsn(k, w, c).Some?
  {
  }

  lemma ChoiceCompletes(k: Kconf, rank: Item -> nat, top: nat, w: State, w1: State, w2: State, w3: State, w4: State, c: nat)
    requires WellFormed(k) && Ranked(k, rank, top) && PicksMembers(k, w) && c < |k.choices|
    requires FourCalls(k, w, w1, w2, w3, w4)
    requires FullBelow(k, rank, w, rank(IChoice(c)))
    ensures ChoiceFull(w4.choices[c])
  {
    ChoiceSelCompletes(k, rank, top, w, w1, w2, w3, c);
    ChoiceVisCompletes(k, rank, top, w, w1, c);
    ChoiceVisStays(k, w1, w2, c);
    ChoiceVisStays(k, w2, w3, c);
    ChoiceVisStays(k, w3, w4, c);
    assert ChoiceAgrees(w3, w4, c);
    ChoiceAsnHas(k, w3, c);
    assert w4.choices[c] == StepChoice(k, w3, c);
  }

  lemma SymInputsLater(k: Kconf, rank: Item -> nat, top: nat, w: State, w1: State, w2: State, w3: State, s: nat)
    requires WellFormed(k) && Ranked(k, rank, top) && PicksMembers(k, w) && s < |k.syms|
    requires Growing(k, w, w1) && Growing(k, w1, w2) && Growing(k, w2, w3)
    requires FullBelow(k, rank, w, rank(ISym(s)))
    ensures HasSymInputs(k, w3, s) && w3.syms[s].vis.Some?
    ensures k.syms[s].choice.Some? ==> SelOf(w3, k.syms[s].choice.value).Some?
  {
    var r := rank(ISym(s));
    assert SymRanked(k, rank, s) && SymWellFormed(k, k.syms[s]);
    SymVisCompletes(k, rank, top, w, w1, w2, s);
    assert SymAgrees(k, w2, w3, s);
    FullStays(k, rank, w, w1, r);
    FullStays(k, rank, w1, w2, r);
    FullStays(k, rank, w2, w3, r);
    if k.syms[s].choice.Some? {
      var c := k.syms[s].choice.value;
      ChoiceSelCompletes(k, rank, top, w, w1, w2, w3, c);
      ChoiceVisCompletes(k, rank, top, w, w1, c);
      ChoiceVisStays(k, w1, w2, c);
      ChoiceVisStays(k, w2, w3, c);
    }
    SymInputsKnown(k, rank, top, w3, s);
  }

  lemma SymCompletes(k: Kconf, rank: Item -> nat, top: nat, w: State, w1: State, w2: State, w3: State, w4: State, s: nat)
    requires WellFormed(k) && Ranked(k, rank, top) && PicksMembers(k, w) && s < |k.syms|
    requires FourCalls(k, w, w1, w2, w3, w4)
    requires FullBelow(k, rank, w, rank(ISym(s)))
    ensures SymFull(w4.syms[s])
  {
    SymInputsLater(k, rank, top, w, w1, w2, w3, s);
    assert SymWellFormed(k, k.syms[s]);
    assert SymAgrees(k, w3, w4, s);
    assert w4.syms[s] == StepSym(k, w3, s);
    if BoolLike(k.syms[s].kind) { SymTriHas(k, w3, s); }
    else if k.syms[s].kind != Unknown { SymStrHas(k, w3, s); }
  }

  /** Four calls complete a rank: choice visibilities, symbol visibilities, selections, values. */
  lemma RankCompletes(k: Kconf, rank: Item -> nat, top: nat, w: State, w1: State, w2: State, w3: State, w4: State, r: nat)
    requires WellFormed(k) && Ranked(k, rank, top) && PicksMembers(k, w)
    requires FourCalls(k, w, w1, w2, w3, w4) && FullBelow(k, rank, w, r)
    ensures FullBelow(k, rank, w4, r + 1)
  {
    AgreesTransitive(k, w, w1, w2);
    AgreesTransitive(k, w, w2, w3);
    AgreesTransitive(k, w, w3, w4);
    FullStays(k, rank, w, w4, r);
    forall c | 0 <= c < |k.choices| && rank(IChoice(c)) == r ensures ChoiceFull(w4.choices[c]) {
      ChoiceCompletes(k, rank, top, w, w1, w2, w3, w4, c);
    }
    forall s | 0 <= s < |k.syms| && rank(ISym(s)) == r ensures SymFull(w4.syms[s]) {
      SymCompletes(k, rank, top, w, w1, w2, w3, w4, s);
    }
  }

  lemma RankStep(k: Kconf, rank: Item -> nat, top: nat, w: State, w1: State, r: nat) returns (w4: State)
    requires WellFormed(k) && Ranked(k, rank, top) && PicksMembers(k, w)
    requires Growing(k, w, w1) && FullBelow(k, rank, w, r)
    ensures w4 == Step(k, Step(k, Step(k, w1)))
    ensures FullBelow(k, rank, w4, r + 1)
  {
    var w2 := Step(k, w1);
    NextGrowing(k, w, w1, w2);
    var w3 := Step(k, w2);
    NextGrowing(k, w1, w2, w3);
    w4 := Step(k, w3);
    NextGrowing(k, w2, w3, w4);
    RankCompletes(k, rank, top, w, w1, w2, w3, w4, r);
  }

  lemma FreshFour(k: Kconf, u: State, d: nat)
    requires Fits(k, u)
    ensures Fresh(k, u, d + 4) == Step(k, Step(k, Step(k, Fresh(k, u, d + 1))))
  {
    FreshNext(k, u, d + 1);
    FreshNext(k, u, d + 2);
    FreshNext(k, u, d + 3);
  }

  ghost predicate IsFresh(k: Kconf, u: State, depth: nat, w: State) {
    Fits(k, u) && Fits(k, w) && w == Fresh(k, u, depth)
  }

  /** Without any call nothing is known, and nothing ranks below 0. */
  lemma FreshZero(k: Kconf, rank: Item -> nat, u: State, d: nat) returns (w: State)
    requires Fits(k, u) && d == 0
    ensures IsFresh(k, u, d, w) && FullBelow(k, rank, w, 0)
  {
    w := Fresh(k, u, d);
  }

  lemma FreshRank(k: Kconf, rank: Item -> nat, top: nat, u: State, r: nat, d: nat, w: State, d4: nat) returns (w4: State)
    requires WellFormed(k) && Ranked(k, rank, top) && PicksMembers(k, u) && IsFresh(k, u, d, w) && d4 == d + 4
    requires FullBelow(k, rank, w, r)
    ensures IsFresh(k, u, d4, w4) && FullBelow(k, rank, w4, r + 1)
  {
    FreshGrows(k, u, d);
    w4 := RankStep(k, rank, top, w, Fresh(k, u, d + 1), r);
    FreshFour(k, u, d);
  }

  /** Ranks complete one after the other, four calls each. */
  lemma {:induction false} FreshCompletes(k: Kconf, rank: Item -> nat, top: nat, u: State, r: nat) returns (w: State)
    requires WellFormed(k) && Ranked(k, rank, top) && PicksMembers(k, u)
    ensures IsFresh(k, u, 4 * r, w) && FullBelow(k, rank, w, r)
    decreases r
  {
    if r == 0 {
      w := FreshZero(k, rank, u, 4 * r);
    } else {
      var before := FreshCompletes(k, rank, top, u, r - 1);
      w := FreshRank(k, rank, top, u, r - 1, 4 * (r - 1), before, 4 * r);
    }
  }

  /** Evaluation ends: on a ranked tree a recursion of depth 4 * top finds every value. */
  lemma FreshSolves(k: Kconf, rank: Item -> nat, top: nat, u: State)
    requires WellFormed(k) && Ranked(k, rank, top) && PicksMembers(k, u)
    ensures Solves(k, Fresh(k, u, 4 * top))
    ensures SameUser(u, Fresh(k, u, 4 * top))
  {
    var w := FreshCompletes(k, rank, top, u, top);
    FreshJustified(k, u, 4 * top);
  }
}
