/**
  What compiled conditions mean.  Read in any table that holds the values they
  mention, a compiled condition is the least of the conditions it was made from,
  and a reverse dependency is the largest of its selects.
 */
module DepMeaning {
  import opened Common
  import opened KconfigModel
  import opened KconfigChoices
  import opened DepCompile

  // ---- Least and largest values ----

  ghost predicate AllKnown(k: Kconf, w: State, es: seq<Expr>) {
    forall i | 0 <= i < |es| :: ExprVal(k, w, es[i]).Some?
  }

  function MinAll(k: Kconf, w: State, es: seq<Expr>): Option<Tri> {
    if es == [] then Some(2)
    else
      var a :- ExprVal(k, w, es[0]);
      var b :- MinAll(k, w, es[1..]);
      Some(Min(a, b))
  }

  /** The largest of least(sym, cond) over the pairs of a selecting symbol and a condition. */
  function MaxMin(k: Kconf, w: State, pairs: seq<(nat, Expr)>): Option<Tri> {
    if pairs == [] then Some(0)
    else
      var a :- MaxMin(k, w, pairs[..|pairs| - 1]);
      var s :- TriOf(k, w, Sym(pairs[|pairs| - 1].0));
      var c :- ExprVal(k, w, pairs[|pairs| - 1].1);
      Some(Max(a, Min(s, c)))
  }

  function MaxAll(k: Kconf, w: State, es: seq<Expr>): Option<Tri> {
    if es == [] then Some(0)
    else
      var a :- MaxAll(k, w, es[..|es| - 1]);
      var b :- ExprVal(k, w, es[|es| - 1]);
      Some(Max(a, b))
  }

  lemma {:induction false} MinAllKnown(k: Kconf, w: State, es: seq<Expr>)
    requires AllKnown(k, w, es)
    ensures MinAll(k, w, es).Some?
  {
    if es != [] {
      assert forall i | 0 <= i < |es[1..]| :: es[1..][i] == es[i + 1];
      MinAllKnown(k, w, es[1..]);
    }
  }

  lemma {:induction false} MinAllAppend(k: Kconf, w: State, a: seq<Expr>, b: seq<Expr>)
    requires MinAll(k, w, a).Some? && MinAll(k, w, b).Some?
    ensures MinAll(k, w, a + b) == Some(Min(MinAll(k, w, a).value, MinAll(k, w, b).value))
  {
    if a == [] {
      assert a + b == b;
    } else {
      assert (a + b)[1..] == a[1..] + b;
      MinAllAppend(k, w, a[1..], b);
    }
  }

  lemma MinAllOne(k: Kconf, w: State, e: Expr)
    ensures MinAll(k, w, [e]) == ExprVal(k, w, e)
  {
    assert [e][1..] == [] && MinAll(k, w, []) == Some(2);
  }

  lemma AndOrValue(k: Kconf, w: State, a: Expr, b: Expr, x: Tri, y: Tri)
    requires ExprVal(k, w, a) == Some(x) && ExprVal(k, w, b) == Some(y)
    ensures ExprVal(k, w, And(a, b)) == Some(Min(x, y)) && ExprVal(k, w, Or(a, b)) == Some(Max(x, y))
  {
  }

  lemma ConstValues(k: Kconf, w: State)
    ensures ExprVal(k, w, Yes) == Some(2) && ExprVal(k, w, No) == Some(0)
  {
  }

  lemma MakeAndValue(k: Kconf, w: State, a: Expr, b: Expr)
    requires ExprVal(k, w, a).Some? && ExprVal(k, w, b).Some?
    ensures ExprVal(k, w, MakeAnd(a, b)) == Some(Min(ExprVal(k, w, a).value, ExprVal(k, w, b).value))
  {
    var x, y := ExprVal(k, w, a).value, ExprVal(k, w, b).value;
    ConstValues(k, w);
    AndOrValue(k, w, a, b, x, y);
    if a == Yes {
      assert MakeAnd(a, b) == b;
    } else if b == Yes {
      assert MakeAnd(a, b) == a;
    } else if a == No || b == No {
      assert MakeAnd(a, b) == No;
    } else {
      assert MakeAnd(a, b) == And(a, b);
    }
  }

  lemma MakeOrValue(k: Kconf, w: State, a: Expr, b: Expr)
    requires ExprVal(k, w, a).Some? && ExprVal(k, w, b).Some?
    ensures ExprVal(k, w, MakeOr(a, b)) == Some(Max(ExprVal(k, w, a).value, ExprVal(k, w, b).value))
  {
    var x, y := ExprVal(k, w, a).value, ExprVal(k, w, b).value;
    ConstValues(k, w);
    AndOrValue(k, w, a, b, x, y);
    if a == No {
      assert MakeOr(a, b) == b;
    } else if b == No {
      assert MakeOr(a, b) == a;
    } else if a == Yes || b == Yes {
      assert MakeOr(a, b) == Yes;
    } else {
      assert MakeOr(a, b) == Or(a, b);
    }
  }

  // ---- The conditions that apply to a node, read off the parsed tree ----

  /** The `depends on` of node i and of the nodes around it, up to the nearest choice, which counts with its mode. */
  function Limits(ps: seq<Props>, i: nat, up: seq<nat>): seq<Expr>
    decreases |up|
  {
    [PropsOf(ps, i).dep] +
    if up == [] then []
    else if PropsOf(ps, up[0]).owner.OwnChoice? then [Mode(PropsOf(ps, up[0]).owner.c)]
    else Limits(ps, up[0], up[1..])
  }

  /** The `visible if`s of all menus around. */
  function VisibleIfs(ps: seq<Props>, up: seq<nat>): seq<Expr> {
    if up == [] then []
    else VisibleIfs(ps, up[1..]) + if PropsOf(ps, up[0]).owner.OwnMenu? then [PropsOf(ps, up[0]).visibility] else []
  }

  predicate HoldsItem(p: Props) {
    p.owner.OwnSym? || p.owner.OwnChoice?
  }

  lemma {:induction false} DepIsLimits(k: Kconf, w: State, ps: seq<Props>, i: nat, up: seq<nat>)
    requires AllKnown(k, w, Limits(ps, i, up))
    ensures ExprVal(k, w, Compiled(ps, i, up).dep) == MinAll(k, w, Limits(ps, i, up))
    ensures MinAll(k, w, Limits(ps, i, up)).Some?
    decreases |up|
  {
    var own, all := PropsOf(ps, i).dep, Limits(ps, i, up);
    MinAllKnown(k, w, all);
    MinAllOne(k, w, own);
    assert all[0] == own;
    if up == [] {
      assert all == [own];
    } else {
      CompiledKeeps(ps, up[0], up[1..]);
      var p := PropsOf(ps, up[0]);
      var above := if p.owner.OwnChoice? then [Mode(p.owner.c)] else Limits(ps, up[0], up[1..]);
      assert all == [own] + above;
      assert forall j | 0 <= j < |above| :: above[j] == all[j + 1];
      MinAllKnown(k, w, above);
      MinAllAppend(k, w, [own], above);
      if p.owner.OwnChoice? { MinAllOne(k, w, Mode(p.owner.c)); } else { DepIsLimits(k, w, ps, up[0], up[1..]); }
      MakeAndValue(k, w, own, BaseOf(Compiled(ps, up[0], up[1..])));
    }
  }

  lemma {:induction false} VisibleIsLimits(k: Kconf, w: State, ps: seq<Props>, up: seq<nat>)
    requires AllKnown(k, w, VisibleIfs(ps, up))
    ensures ExprVal(k, w, Visible(ps, up)) == MinAll(k, w, VisibleIfs(ps, up)) && MinAll(k, w, VisibleIfs(ps, up)).Some?
  {
    if up != [] {
      var p, rest := PropsOf(ps, up[0]), VisibleIfs(ps, up[1..]);
      assert forall j | 0 <= j < |rest| :: rest[j] == VisibleIfs(ps, up)[j];
      VisibleIsLimits(k, w, ps, up[1..]);
      if p.owner.OwnMenu? {
        assert VisibleIfs(ps, up)[|rest|] == p.visibility;
        MinAllOne(k, w, p.visibility);
        MinAllAppend(k, w, rest, [p.visibility]);
        MakeAndValue(k, w, Visible(ps, up[1..]), p.visibility);
      } else {
        assert rest + [] == rest;
      }
    }
  }

  /** A compiled prompt condition is the least of its own, the dependencies that apply, and for items the `visible if`s. */
  lemma PromptMeaning(k: Kconf, w: State, ps: seq<Props>, i: nat, up: seq<nat>, e: Expr)
    requires up != [] && PropsOf(ps, i).prompt == Some(e)
    requires ExprVal(k, w, e).Some? && AllKnown(k, w, Limits(ps, i, up)) && AllKnown(k, w, VisibleIfs(ps, up))
    ensures var got := Compiled(ps, i, up).prompt;
      && got.Some?
      && ExprVal(k, w, got.value) ==
         MinAll(k, w, [e] + ((if HoldsItem(PropsOf(ps, i)) then VisibleIfs(ps, up) else []) + Limits(ps, i, up)))
  {
    var vis := if HoldsItem(PropsOf(ps, i)) then VisibleIfs(ps, up) else [];
    var limits, dep := Limits(ps, i, up), Compiled(ps, i, up).dep;
    DepIsLimits(k, w, ps, i, up);
    VisibleIsLimits(k, w, ps, up);
    MinAllKnown(k, w, vis);
    MinAllAppend(k, w, vis, limits);
    MinAllOne(k, w, e);
    MinAllAppend(k, w, [e], vis + limits);
    if HoldsItem(PropsOf(ps, i)) {
      MakeAndValue(k, w, Visible(ps, up), dep);
      MakeAndValue(k, w, e, MakeAnd(Visible(ps, up), dep));
    } else {
      assert [] + limits == limits;
      MakeAndValue(k, w, e, dep);
    }
  }

  /** The same for the condition of a default, range, select or imply. */
  lemma CondMeaning<T>(k: Kconf, w: State, ps: seq<Props>, i: nat, up: seq<nat>, gs: seq<Guarded<T>>, j: nat)
    requires j < |gs| && ExprVal(k, w, gs[j].cond).Some? && AllKnown(k, w, Limits(ps, i, up))
    ensures var got := Restrict(gs, Compiled(ps, i, up).dep)[j];
      got.item == gs[j].item && ExprVal(k, w, got.cond) == MinAll(k, w, [gs[j].cond] + Limits(ps, i, up))
  {
    DepIsLimits(k, w, ps, i, up);
    MinAllOne(k, w, gs[j].cond);
    MinAllAppend(k, w, [gs[j].cond], Limits(ps, i, up));
    MakeAndValue(k, w, gs[j].cond, Compiled(ps, i, up).dep);
  }

  /** All conditions of gs are those of the parsed node, limited by the dependencies that apply. */
  ghost predicate Limited<T>(k: Kconf, w: State, gs: seq<Guarded<T>>, got: seq<Guarded<T>>, limits: seq<Expr>) {
    && |got| == |gs|
    && forall j | 0 <= j < |gs| ::
         got[j].item == gs[j].item && ExprVal(k, w, got[j].cond) == MinAll(k, w, [gs[j].cond] + limits)
  }

  ghost predicate CondsKnown<T>(k: Kconf, w: State, gs: seq<Guarded<T>>) {
    forall j | 0 <= j < |gs| :: ExprVal(k, w, gs[j].cond).Some?
  }

  lemma AllLimited<T>(k: Kconf, w: State, ps: seq<Props>, i: nat, up: seq<nat>, gs: seq<Guarded<T>>)
    requires CondsKnown(k, w, gs) && AllKnown(k, w, Limits(ps, i, up))
    ensures Limited(k, w, gs, Restrict(gs, Compiled(ps, i, up).dep), Limits(ps, i, up))
  {
    forall j | 0 <= j < |gs|
      ensures var got := Restrict(gs, Compiled(ps, i, up).dep)[j];
        got.item == gs[j].item && ExprVal(k, w, got.cond) == MinAll(k, w, [gs[j].cond] + Limits(ps, i, up))
    {
      CondMeaning(k, w, ps, i, up, gs, j);
    }
  }

  /** Every default, range, select and imply of an item below another node. */
  lemma PropsMeaning(k: Kconf, w: State, ps: seq<Props>, i: nat, up: seq<nat>)
    requires up != [] && HoldsItem(PropsOf(ps, i)) && AllKnown(k, w, Limits(ps, i, up))
    ensures var p, q, limits := PropsOf(ps, i), Compiled(ps, i, up), Limits(ps, i, up);
      && (CondsKnown(k, w, p.defaults) ==> Limited(k, w, p.defaults, q.defaults, limits))
      && (CondsKnown(k, w, p.ranges) ==> Limited(k, w, p.ranges, q.ranges, limits))
      && (CondsKnown(k, w, p.selects) ==> Limited(k, w, p.selects, q.selects, limits))
      && (CondsKnown(k, w, p.implies) ==> Limited(k, w, p.implies, q.implies, limits))
  {
    var p := PropsOf(ps, i);
    if CondsKnown(k, w, p.defaults) { AllLimited(k, w, ps, i, up, p.defaults); }
    if CondsKnown(k, w, p.ranges) { AllLimited(k, w, ps, i, up, p.ranges); }
    if CondsKnown(k, w, p.selects) { AllLimited(k, w, ps, i, up, p.selects); }
    if CondsKnown(k, w, p.implies) { AllLimited(k, w, ps, i, up, p.implies); }
  }

  // ---- Conjuncts ----

  lemma MakeAndConjunct(a: Expr, b: Expr, x: Expr)
    requires x != Yes
    ensures HasConjunct(a, x) || a == No ==> HasConjunct(MakeAnd(a, b), x) || MakeAnd(a, b) == No
    ensures HasConjunct(b, x) || b == No ==> HasConjunct(MakeAnd(a, b), x) || MakeAnd(a, b) == No
  {
  }

  lemma {:induction false} LimitIsConjunct(ps: seq<Props>, i: nat, up: seq<nat>, x: Expr)
    requires x in Limits(ps, i, up) && x != Yes
    ensures var dep := Compiled(ps, i, up).dep; HasConjunct(dep, x) || dep == No
    decreases |up|
  {
    if up != [] {
      CompiledKeeps(ps, up[0], up[1..]);
      var base := BaseOf(Compiled(ps, up[0], up[1..]));
      MakeAndConjunct(PropsOf(ps, i).dep, base, x);
      if x != PropsOf(ps, i).dep && !PropsOf(ps, up[0]).owner.OwnChoice? { LimitIsConjunct(ps, up[0], up[1..], x); }
    }
  }

  /** Inside a choice, also below further `if`s and menus, every prompt condition is n or has the choice as a conjunct. */
  lemma PromptsGuarded(ps: seq<Props>, i: nat, up: seq<nat>, c: nat)
    requires up != [] && HoldsItem(PropsOf(ps, i)) && Mode(c) in Limits(ps, i, up) && PropsOf(ps, i).prompt.Some?
    ensures Compiled(ps, i, up).prompt.Some? && PromptGuarded(Compiled(ps, i, up).prompt.value, c)
  {
    var dep, vis := Compiled(ps, i, up).dep, Visible(ps, up);
    LimitIsConjunct(ps, i, up, Mode(c));
    MakeAndConjunct(vis, dep, Mode(c));
    MakeAndConjunct(PropsOf(ps, i).prompt.value, MakeAnd(vis, dep), Mode(c));
  }

  // ---- Reverse and direct dependencies ----

  function PairsOf(s: nat, gs: seq<Guarded<nat>>, target: nat, n: nat): seq<(nat, Expr)>
    requires n <= |gs|
  {
    if n == 0 then []
    else PairsOf(s, gs, target, n - 1) + if gs[n - 1].item == target then [(s, gs[n - 1].cond)] else []
  }

  /** The selects (or implies) of target by the nodes in order, each with the selecting symbol. */
  function SelectedBy(ps: seq<Props>, order: seq<nat>, target: nat, weak: bool): seq<(nat, Expr)> {
    if order == [] then []
    else
      var p := PropsOf(ps, order[|order| - 1]);
      SelectedBy(ps, order[..|order| - 1], target, weak) +
      if !p.owner.OwnSym? then []
      else if weak then PairsOf(p.owner.s, p.implies, target, |p.implies|)
      else PairsOf(p.owner.s, p.selects, target, |p.selects|)
  }

  ghost predicate PairsKnown(k: Kconf, w: State, pairs: seq<(nat, Expr)>) {
    forall i | 0 <= i < |pairs| :: TriOf(k, w, Sym(pairs[i].0)).Some? && ExprVal(k, w, pairs[i].1).Some?
  }

  /** One more pair. */
  lemma MaxMinMore(k: Kconf, w: State, pairs: seq<(nat, Expr)>, s: nat, c: Expr)
    requires PairsKnown(k, w, pairs + [(s, c)])
    ensures PairsKnown(k, w, pairs)
    ensures ExprVal(k, w, MakeAnd(Use(Sym(s)), c)).Some?
    ensures MaxMin(k, w, pairs).Some? ==>
              MaxMin(k, w, pairs + [(s, c)]) ==
              Some(Max(MaxMin(k, w, pairs).value, ExprVal(k, w, MakeAnd(Use(Sym(s)), c)).value))
  {
    var all := pairs + [(s, c)];
    assert forall i | 0 <= i < |pairs| :: pairs[i] == all[i];
    assert all[|pairs|] == (s, c) && all[..|all| - 1] == pairs;
    MakeAndValue(k, w, Use(Sym(s)), c);
  }

  lemma {:induction false} OrAllValue(k: Kconf, w: State, e: Expr, before: seq<(nat, Expr)>, s: nat, gs: seq<Guarded<nat>>, t: nat, n: nat)
    requires n <= |gs| && PairsKnown(k, w, before + PairsOf(s, gs, t, n))
    requires MaxMin(k, w, before).Some? && ExprVal(k, w, e) == MaxMin(k, w, before)
    ensures MaxMin(k, w, before + PairsOf(s, gs, t, n)).Some?
    ensures ExprVal(k, w, OrAll(e, Reverse(s, gs, t, n))) == MaxMin(k, w, before + PairsOf(s, gs, t, n))
  {
    if n == 0 {
      assert before + [] == before;
    } else {
      var all, fewer := before + PairsOf(s, gs, t, n), before + PairsOf(s, gs, t, n - 1);
      if gs[n - 1].item == t {
        assert all == fewer + [(s, gs[n - 1].cond)];
        MaxMinMore(k, w, fewer, s, gs[n - 1].cond);
        OrAllValue(k, w, e, before, s, gs, t, n - 1);
        var x, es := MakeAnd(Use(Sym(s)), gs[n - 1].cond), Reverse(s, gs, t, n - 1);
        OrOne(e, es, x);
        MakeOrValue(k, w, OrAll(e, es), x);
      } else {
        assert PairsOf(s, gs, t, n) == PairsOf(s, gs, t, n - 1) + [] == PairsOf(s, gs, t, n - 1);
        OrAllValue(k, w, e, before, s, gs, t, n - 1);
      }
    }
  }

  /** The (weak) reverse dependency of a symbol is the largest of least(selecting symbol, condition) over all nodes. */
  lemma {:induction false} ReverseMeaning(k: Kconf, w: State, ps: seq<Props>, order: seq<nat>, t: nat, weak: bool)
    requires PairsKnown(k, w, SelectedBy(ps, order, t, weak))
    ensures MaxMin(k, w, SelectedBy(ps, order, t, weak)).Some?
    ensures var x := Collected(Untouched, OwnSym(t), ps, order);
      ExprVal(k, w, if weak then x.weakRevDep else x.revDep) == MaxMin(k, w, SelectedBy(ps, order, t, weak))
    decreases |order|
  {
    if order != [] {
      var rest, p := order[..|order| - 1], PropsOf(ps, order[|order| - 1]);
      var before, all := SelectedBy(ps, rest, t, weak), SelectedBy(ps, order, t, weak);
      assert forall i | 0 <= i < |before| :: before[i] == all[i];
      ReverseMeaning(k, w, ps, rest, t, weak);
      assert order == rest + [order[|order| - 1]];
      CollectedLast(Untouched, OwnSym(t), ps, rest, order[|order| - 1]);
      var x := Collected(Untouched, OwnSym(t), ps, rest);
      if p.owner.OwnSym? {
        var gs, e := if weak then p.implies else p.selects, if weak then x.weakRevDep else x.revDep;
        OrAllValue(k, w, e, before, p.owner.s, gs, t, |gs|);
      } else {
        assert all == before;
      }
    }
  }

  function DepsOf(ps: seq<Props>, order: seq<nat>, z: Owner): seq<Expr> {
    if order == [] then []
    else
      var p := PropsOf(ps, order[|order| - 1]);
      DepsOf(ps, order[..|order| - 1], z) + if p.owner == z then [p.dep] else []
  }

  /** The direct dependency of a symbol or choice is the largest of the dependencies of its nodes. */
  lemma {:induction false} DirectMeaning(k: Kconf, w: State, ps: seq<Props>, order: seq<nat>, z: Owner)
    requires (z.OwnSym? || z.OwnChoice?) && AllKnown(k, w, DepsOf(ps, order, z))
    ensures MaxAll(k, w, DepsOf(ps, order, z)).Some?
    ensures ExprVal(k, w, Collected(Untouched, z, ps, order).directDep) == MaxAll(k, w, DepsOf(ps, order, z))
    decreases |order|
  {
    if order != [] {
      var rest, p := order[..|order| - 1], PropsOf(ps, order[|order| - 1]);
      var before, all := DepsOf(ps, rest, z), DepsOf(ps, order, z);
      assert forall i | 0 <= i < |before| :: before[i] == all[i];
      DirectMeaning(k, w, ps, rest, z);
      assert order == rest + [order[|order| - 1]];
      CollectedLast(Untouched, z, ps, rest, order[|order| - 1]);
      if p.owner == z {
        assert all[..|all| - 1] == before && all[|all| - 1] == p.dep;
        MakeOrValue(k, w, Collected(Untouched, z, ps, rest).directDep, p.dep);
      } else {
        assert all == before;
      }
    }
  }

  lemma {:induction false} MaxAllBound(k: Kconf, w: State, es: seq<Expr>, j: nat)
    requires j < |es| && MaxAll(k, w, es).Some?
    ensures ExprVal(k, w, es[j]).Some? && ExprVal(k, w, es[j]).value <= MaxAll(k, w, es).value
  {
    if j < |es| - 1 {
      MaxAllBound(k, w, es[..|es| - 1], j);
      assert es[..|es| - 1][j] == es[j];
    }
  }

  lemma {:induction false} DepIsListed(ps: seq<Props>, order: seq<nat>, z: Owner, i: nat) returns (j: nat)
    requires i in order && PropsOf(ps, i).owner == z
    ensures j < |DepsOf(ps, order, z)| && DepsOf(ps, order, z)[j] == PropsOf(ps, i).dep
    decreases |order|
  {
    var rest, last := order[..|order| - 1], order[|order| - 1];
    if last == i {
      j := |DepsOf(ps, rest, z)|;
    } else {
      assert order == rest + [last];
      j := DepIsListed(ps, rest, z, i);
    }
  }

  /** No prompt of a symbol or choice is more visible than the direct dependency of the item allows. */
  lemma PromptNeedsDirect(k: Kconf, w: State, ps0: seq<Props>, ps: seq<Props>, order: seq<nat>, i: nat, up: seq<nat>)
    requires up != [] && i in order && HoldsItem(PropsOf(ps0, i)) && PropsOf(ps0, i).prompt.Some?
    requires PropsOf(ps, i) == Compiled(ps0, i, up) && AllKnown(k, w, DepsOf(ps, order, PropsOf(ps0, i).owner))
    requires ExprVal(k, w, PropsOf(ps0, i).prompt.value).Some?
    requires AllKnown(k, w, Limits(ps0, i, up)) && AllKnown(k, w, VisibleIfs(ps0, up))
    ensures var prompt, direct := PropsOf(ps, i).prompt, Collected(Untouched, PropsOf(ps0, i).owner, ps, order).directDep;
      && prompt.Some? && ExprVal(k, w, prompt.value).Some? && ExprVal(k, w, direct).Some?
      && ExprVal(k, w, prompt.value).value <= ExprVal(k, w, direct).value
  {
    var e, dep, vis := PropsOf(ps0, i).prompt.value, Compiled(ps0, i, up).dep, Visible(ps0, up);
    var z := PropsOf(ps0, i).owner;
    DepIsLimits(k, w, ps0, i, up);
    VisibleIsLimits(k, w, ps0, up);
    MakeAndValue(k, w, vis, dep);
    MakeAndValue(k, w, e, MakeAnd(vis, dep));
    CompiledKeeps(ps0, i, up);
    DirectMeaning(k, w, ps, order, z);
    var j := DepIsListed(ps, order, z, i);
    MaxAllBound(k, w, DepsOf(ps, order, z), j);
  }

  // ---- Defaults and ranges ----

  /** The defaults of the nodes of z, in node order. */
  function DefaultsOf(ps: seq<Props>, order: seq<nat>, z: Owner): seq<Guarded<Expr>> {
    if order == [] then []
    else (if PropsOf(ps, order[0]).owner == z then PropsOf(ps, order[0]).defaults else []) + DefaultsOf(ps, order[1..], z)
  }

  function RangesOf(ps: seq<Props>, order: seq<nat>, z: Owner): seq<Guarded<(Operand, Operand)>> {
    if order == [] then []
    else (if PropsOf(ps, order[0]).owner == z then PropsOf(ps, order[0]).ranges else []) + RangesOf(ps, order[1..], z)
  }

  lemma {:induction false} CollectedLists(x: ItemProps, z: Owner, ps: seq<Props>, order: seq<nat>)
    requires z.OwnSym? || z.OwnChoice?
    ensures Collected(x, z, ps, order).defaults == x.defaults + DefaultsOf(ps, order, z)
    ensures Collected(x, z, ps, order).ranges == x.ranges + if z.OwnSym? then RangesOf(ps, order, z) else []
    decreases |order|
  {
    if order != [] {
      var p, rest := PropsOf(ps, order[0]), order[1..];
      CollectedLists(Contributed(x, z, p), z, ps, rest);
      ContributedLists(x, z, p);
      Joined(x.defaults, if p.owner == z then p.defaults else [], DefaultsOf(ps, rest, z));
      Joined(x.ranges, if p.owner == z then p.ranges else [], RangesOf(ps, rest, z));
    } else {
      Joined(x.defaults, [], []);
      Joined(x.ranges, [], []);
    }
  }

  lemma ContributedLists(x: ItemProps, z: Owner, p: Props)
    requires z.OwnSym? || z.OwnChoice?
    ensures Contributed(x, z, p).defaults == x.defaults + if p.owner == z then p.defaults else []
    ensures Contributed(x, z, p).ranges == x.ranges + if p.owner == z && z.OwnSym? then p.ranges else []
  {
  }

  lemma Joined<T>(a: seq<T>, b: seq<T>, c: seq<T>)
    ensures a + b + c == a + (b + c) && a + [] == a
  {
  }

  /** After compilation a symbol or choice has exactly the defaults of its own nodes, in node order, and a symbol their ranges. */
  lemma ListMeaning(z: Owner, ps: seq<Props>, order: seq<nat>)
    requires z.OwnSym? || z.OwnChoice?
    ensures Collected(Untouched, z, ps, order).defaults == DefaultsOf(ps, order, z)
    ensures z.OwnSym? ==> Collected(Untouched, z, ps, order).ranges == RangesOf(ps, order, z)
  {
    CollectedLists(Untouched, z, ps, order);
    assert [] + DefaultsOf(ps, order, z) == DefaultsOf(ps, order, z);
    assert [] + RangesOf(ps, order, z) == RangesOf(ps, order, z);
  }
}
