/**
  A tree assembled from compiled nodes.  What other parts of the model ask of a
  tree follows from its menu: prompts inside a choice are guarded by it, and no
  visible symbol has n as its direct dependency.
 */
module DepAssembly {
  import opened Common
  import opened KconfigModel
  import opened KconfigReads
  import opened KconfigValues
  import opened KconfigFresh
  import opened KconfigChoices
  import opened KconfigRoundTrip
  import opened MenuShape
  import opened MenuTree
  import opened DepCompile
  import opened DepMeaning

  // ---- Compiling the whole menu ----

  ghost predicate MenuOk(ps0: seq<Props>, top: Tree, n: nat, m: nat) {
    && Unique([top]) && SymsAreLeaves(ps0, [top]) && (forall x | x in Ids([top]) :: x < |ps0|)
    && (forall x | 0 <= x < |ps0| :: InTable(ps0[x], n, m))
    && !HoldsItem(PropsOf(ps0, top.id))
  }

  /** All nodes are compiled, and have contributed to symbols and choices without properties. */
  ghost predicate AllCompiled(ps0: seq<Props>, ps: seq<Props>, top: Tree, syms: seq<ItemProps>, choices: seq<ItemProps>) {
    && Final(ps0, ps, [top], [])
    && (forall s | 0 <= s < |syms| :: syms[s] == Collected(Untouched, OwnSym(s), ps, Post([top])))
    && (forall c | 0 <= c < |choices| :: choices[c] == Collected(Untouched, OwnChoice(c), ps, Post([top])))
  }

  method CompileMenu(ps0: seq<Props>, top: Tree, n: nat, m: nat)
    returns (ps: seq<Props>, syms: seq<ItemProps>, choices: seq<ItemProps>)
    requires MenuOk(ps0, top, n, m)
    ensures |ps| == |ps0| && |syms| == n && |choices| == m && AllCompiled(ps0, ps, top, syms, choices)
  {
    var compiler := new Compiler(ps0, n, m);
    TopAtDepth(ps0, top);
    compiler.CompileNode(top, Yes, ps0, []);
    ps, syms, choices := compiler.nodes, compiler.syms, compiler.choices;
  }

  lemma TopAtDepth(ps0: seq<Props>, top: Tree)
    requires forall x | x in Ids([top]) :: x < |ps0|
    ensures AtDepth(ps0, ps0, [top], [])
  {
    IdsOne(top);
  }

  // ---- The tree ----

  /** The prompt conditions of the nodes of an item. */
  function PromptsOf(ps: seq<Props>, order: seq<nat>, z: Owner): seq<Expr> {
    if order == [] then []
    else
      var p := PropsOf(ps, order[|order| - 1]);
      PromptsOf(ps, order[..|order| - 1], z) + if p.owner == z && p.prompt.Some? then [p.prompt.value] else []
  }

  predicate SymAssembled(d: Symbol, x: ItemProps, prompts: seq<Expr>) {
    && d.prompts == prompts && d.defaults == x.defaults && d.ranges == x.ranges
    && d.revDep == x.revDep && d.weakRevDep == x.weakRevDep && d.directDep == x.directDep
  }

  predicate ChoiceAssembled(d: Choice, x: ItemProps, prompts: seq<Expr>) {
    && d.prompts == prompts && |d.defaults| == |x.defaults|
    && forall i | 0 <= i < |d.defaults| :: x.defaults[i] == Guarded(Use(Sym(d.defaults[i].item)), d.defaults[i].cond)
  }

  /** The items of k have the properties that the compiled menu gives them. */
  ghost predicate Assembled(k: Kconf, ps0: seq<Props>, ps: seq<Props>, top: Tree, syms: seq<ItemProps>, choices: seq<ItemProps>) {
    && AllCompiled(ps0, ps, top, syms, choices) && !HoldsItem(PropsOf(ps0, top.id))
    && |syms| == |k.syms| && |choices| == |k.choices|
    && (forall s | 0 <= s < |syms| :: SymAssembled(k.syms[s], syms[s], PromptsOf(ps, Post([top]), OwnSym(s))))
    && (forall c | 0 <= c < |choices| :: ChoiceAssembled(k.choices[c], choices[c], PromptsOf(ps, Post([top]), OwnChoice(c))))
  }

  // ---- Where a node lies ----

  /** Node i of f, with the list of nodes around it, f itself being enclosed by up. */
  predicate Located(f: Forest, up: seq<nat>, i: nat, around: seq<nat>)
    decreases f
  {
    f != [] &&
    (|| (f[0].id == i && around == up) || Located(f[0].kids, [f[0].id] + up, i, around)
     || Located(f[1..], up, i, around))
  }

  lemma {:induction false} IsLocated(f: Forest, up: seq<nat>, i: nat) returns (around: seq<nat>)
    requires i in Ids(f)
    ensures Located(f, up, i, around)
    decreases f
  {
    if f[0].id == i {
      around := up;
    } else if i in Ids(f[0].kids) {
      around := IsLocated(f[0].kids, [f[0].id] + up, i);
    } else {
      around := IsLocated(f[1..], up, i);
    }
  }

  lemma {:induction false} LocatedBelow(f: Forest, up: seq<nat>, i: nat, around: seq<nat>)
    requires Located(f, up, i, around) && up != []
    ensures around != []
    decreases f
  {
    if Located(f[0].kids, [f[0].id] + up, i, around) {
      LocatedBelow(f[0].kids, [f[0].id] + up, i, around);
    } else if Located(f[1..], up, i, around) {
      LocatedBelow(f[1..], up, i, around);
    }
  }

  lemma {:induction false} LocatedFinal(ps0: seq<Props>, ps: seq<Props>, f: Forest, up: seq<nat>, i: nat, around: seq<nat>)
    requires Final(ps0, ps, f, up) && Located(f, up, i, around)
    ensures i < |ps| && PropsOf(ps, i) == Compiled(ps0, i, around)
    decreases f
  {
    if Located(f[0].kids, [f[0].id] + up, i, around) {
      LocatedFinal(ps0, ps, f[0].kids, [f[0].id] + up, i, around);
    } else if Located(f[1..], up, i, around) {
      LocatedFinal(ps0, ps, f[1..], up, i, around);
    }
  }

  /** A node of an item is compiled below some other node. */
  lemma ItemLocated(ps0: seq<Props>, ps: seq<Props>, top: Tree, i: nat) returns (around: seq<nat>)
    requires Final(ps0, ps, [top], []) && !HoldsItem(PropsOf(ps0, top.id))
    requires i in Post([top]) && HoldsItem(PropsOf(ps, i))
    ensures Located([top], [], i, around) && around != []
    ensures PropsOf(ps, i) == Compiled(ps0, i, around) && PropsOf(ps0, i).owner == PropsOf(ps, i).owner
  {
    PostIds([top]);
    around := IsLocated([top], [], i);
    LocatedFinal(ps0, ps, [top], [], i, around);
    CompiledKeeps(ps0, i, around);
    assert [top][0] == top && [top][1..] == [];
    if Located(top.kids, [top.id] + [], i, around) { LocatedBelow(top.kids, [top.id] + [], i, around); }
  }

  lemma {:induction false} PromptListed(ps: seq<Props>, order: seq<nat>, z: Owner, j: nat) returns (i: nat)
    requires j < |PromptsOf(ps, order, z)|
    ensures i in order && PropsOf(ps, i).owner == z && PropsOf(ps, i).prompt == Some(PromptsOf(ps, order, z)[j])
    decreases |order|
  {
    var rest, last := order[..|order| - 1], order[|order| - 1];
    if j < |PromptsOf(ps, rest, z)| {
      i := PromptListed(ps, rest, z, j);
      assert order == rest + [last];
    } else {
      i := last;
    }
  }

  lemma CompiledPrompt(ps: seq<Props>, i: nat, up: seq<nat>)
    ensures Compiled(ps, i, up).prompt.Some? <==> PropsOf(ps, i).prompt.Some?
  {
  }

  // ---- Prompts inside choices ----

  /** The nearest choice. */
  function ChoiceAround(ps: seq<Props>, up: seq<nat>): Option<nat> {
    if up == [] then None
    else if PropsOf(ps, up[0]).owner.OwnChoice? then Some(PropsOf(ps, up[0]).owner.c)
    else ChoiceAround(ps, up[1..])
  }

  lemma {:induction false} ChoiceLimits(ps: seq<Props>, i: nat, up: seq<nat>, c: nat)
    requires ChoiceAround(ps, up) == Some(c)
    ensures Mode(c) in Limits(ps, i, up)
    decreases |up|
  {
    if !PropsOf(ps, up[0]).owner.OwnChoice? { ChoiceLimits(ps, up[0], up[1..], c); }
  }

  /** Choice symbols have prompts only inside their choice; the loader warns about any other. */
  ghost predicate PromptsInside(k: Kconf, ps0: seq<Props>, top: Tree) {
    forall i: nat, around: seq<nat>, s: nat |
      Located([top], [], i, around) && PropsOf(ps0, i).owner == OwnSym(s) && PropsOf(ps0, i).prompt.Some? &&
      s < |k.syms| && k.syms[s].choice.Some? ::
      ChoiceAround(ps0, around) == k.syms[s].choice
  }

  lemma AssembledPropagated(
    k: Kconf, ps0: seq<Props>, ps: seq<Props>, top: Tree, syms: seq<ItemProps>, choices: seq<ItemProps>)
    requires Assembled(k, ps0, ps, top, syms, choices) && PromptsInside(k, ps0, top)
    ensures Propagated(k)
  {
    forall s, j | 0 <= s < |k.syms| && k.syms[s].choice.Some? && 0 <= j < |k.syms[s].prompts|
      ensures PromptGuarded(k.syms[s].prompts[j], k.syms[s].choice.value)
    {
      assert SymAssembled(k.syms[s], syms[s], PromptsOf(ps, Post([top]), OwnSym(s)));
      var i := PromptListed(ps, Post([top]), OwnSym(s), j);
      var around := ItemLocated(ps0, ps, top, i);
      CompiledPrompt(ps0, i, around);
      ChoiceLimits(ps0, i, around, k.syms[s].choice.value);
      PromptsGuarded(ps0, i, around, k.syms[s].choice.value);
    }
  }

  // ---- Visible symbols and their direct dependencies ----

  /** The conditions of the menu mention only items of the tree. */
  ghost predicate MenuInTree(k: Kconf, ps0: seq<Props>) {
    forall i: nat ::
      var p := PropsOf(ps0, i);
      && ExprInTree(k, p.dep) && ExprInTree(k, p.visibility) && (p.prompt.Some? ==> ExprInTree(k, p.prompt.value))
      && (p.owner.OwnChoice? ==> p.owner.c < |k.choices|)
  }

  lemma SolvedKnown(k: Kconf, w: State, e: Expr)
    requires WellFormed(k) && Solves(k, w) && ExprInTree(k, e)
    ensures ExprVal(k, w, e).Some?
  {
    forall z | Mentions(e, z) ensures Has(k, w, z) {
      match z
      case ISym(s) => assert SymFull(w.syms[s]);
      case IChoice(c) => assert ChoiceFull(w.choices[c]);
    }
    ExprHas(k, w, e);
  }

  lemma {:induction false} LimitsKnown(k: Kconf, w: State, ps0: seq<Props>, i: nat, up: seq<nat>)
    requires WellFormed(k) && Solves(k, w) && MenuInTree(k, ps0)
    ensures AllKnown(k, w, Limits(ps0, i, up))
    decreases |up|
  {
    SolvedKnown(k, w, PropsOf(ps0, i).dep);
    if up != [] {
      var p := PropsOf(ps0, up[0]);
      if p.owner.OwnChoice? { SolvedKnown(k, w, Mode(p.owner.c)); } else { LimitsKnown(k, w, ps0, up[0], up[1..]); }
    }
  }

  lemma {:induction false} VisibleIfsKnown(k: Kconf, w: State, ps0: seq<Props>, up: seq<nat>)
    requires WellFormed(k) && Solves(k, w) && MenuInTree(k, ps0)
    ensures AllKnown(k, w, VisibleIfs(ps0, up))
  {
    if up != [] {
      VisibleIfsKnown(k, w, ps0, up[1..]);
      SolvedKnown(k, w, PropsOf(ps0, up[0]).visibility);
    }
  }

  lemma {:induction false} DepsKnown(
    k: Kconf, w: State, ps0: seq<Props>, ps: seq<Props>, top: Tree, order: seq<nat>, z: Owner)
    requires WellFormed(k) && Solves(k, w) && MenuInTree(k, ps0) && (z.OwnSym? || z.OwnChoice?)
    requires Final(ps0, ps, [top], []) && !HoldsItem(PropsOf(ps0, top.id)) && forall i | i in order :: i in Post([top])
    ensures AllKnown(k, w, DepsOf(ps, order, z))
    decreases |order|
  {
    if order != [] {
      var last := order[|order| - 1];
      DepsKnown(k, w, ps0, ps, top, order[..|order| - 1], z);
      if PropsOf(ps, last).owner == z {
        var around := ItemLocated(ps0, ps, top, last);
        LimitsKnown(k, w, ps0, last, around);
        DepIsLimits(k, w, ps0, last, around);
      }
    }
  }

  lemma {:induction false} SomePrompt(k: Kconf, w: State, prompts: seq<Expr>, n: nat) returns (j: nat)
    requires n <= |prompts| && PromptVis(k, w, prompts, n).Some? && PromptVis(k, w, prompts, n).value > 0
    ensures j < n && ExprVal(k, w, prompts[j]).Some? && ExprVal(k, w, prompts[j]).value > 0
  {
    if ExprVal(k, w, prompts[n - 1]) != Some(0) {
      j := n - 1;
    } else {
      j := SomePrompt(k, w, prompts, n - 1);
    }
  }

  /** A visible symbol has a direct dependency other than n. */
  lemma VisibleNeedsDirect(
    k: Kconf, w: State, ps0: seq<Props>, ps: seq<Props>, top: Tree, syms: seq<ItemProps>, choices: seq<ItemProps>, s: nat)
    requires WellFormed(k) && Solves(k, w) && MenuInTree(k, ps0) && Assembled(k, ps0, ps, top, syms, choices)
    requires s < |k.syms| && w.syms[s].vis != Some(0)
    ensures ExprVal(k, w, k.syms[s].directDep) != Some(0)
  {
    var order, prompts := Post([top]), k.syms[s].prompts;
    assert SymAssembled(k.syms[s], syms[s], PromptsOf(ps, order, OwnSym(s)));
    assert SymFull(w.syms[s]) && SymJustified(k, w, s);
    var j := SomePrompt(k, w, prompts, |prompts|);
    var i := PromptListed(ps, order, OwnSym(s), j);
    var around := ItemLocated(ps0, ps, top, i);
    CompiledPrompt(ps0, i, around);
    LimitsKnown(k, w, ps0, i, around);
    VisibleIfsKnown(k, w, ps0, around);
    DepsKnown(k, w, ps0, ps, top, order, OwnSym(s));
    SolvedKnown(k, w, PropsOf(ps0, i).prompt.value);
    PromptNeedsDirect(k, w, ps0, ps, order, i, around);
  }

  // ---- What the minimal writer asks for ----

  /** Only bool and tristate symbols, or symbols without a type, are selected; the loader warns about any other. */
  ghost predicate SelectsOk(k: Kconf, ps: seq<Props>, order: seq<nat>) {
    forall i: nat, j, t | i in order && 0 <= j < |PropsOf(ps, i).selects| && PropsOf(ps, i).selects[j].item == t && t < |k.syms| ::
      BoolLike(k.syms[t].kind) || k.syms[t].kind == Unknown
  }

  lemma {:induction false} ReverseNone(s: nat, gs: seq<Guarded<nat>>, t: nat, n: nat)
    requires n <= |gs| && forall j | 0 <= j < |gs| :: gs[j].item != t
    ensures Reverse(s, gs, t, n) == []
  {
    if n > 0 { ReverseNone(s, gs, t, n - 1); }
  }

  lemma {:induction false} NotSelected(ps: seq<Props>, order: seq<nat>, t: nat)
    requires forall i, j | i in order && 0 <= j < |PropsOf(ps, i).selects| :: PropsOf(ps, i).selects[j].item != t
    ensures Collected(Untouched, OwnSym(t), ps, order).revDep == No
    decreases |order|
  {
    if order != [] {
      var rest, last := order[..|order| - 1], order[|order| - 1];
      assert order == rest + [last];
      NotSelected(ps, rest, t);
      CollectedLast(Untouched, OwnSym(t), ps, rest, last);
      var p := PropsOf(ps, last);
      if p.owner.OwnSym? { ReverseNone(p.owner.s, p.selects, t, |p.selects|); }
    }
  }

  /** A tree assembled from a menu is ready for the minimal writer. */
  lemma AssembledMinReady(
    k: Kconf, w: State, ps0: seq<Props>, ps: seq<Props>, top: Tree, syms: seq<ItemProps>, choices: seq<ItemProps>)
    requires WellFormed(k) && Solves(k, w) && MenuInTree(k, ps0) && Assembled(k, ps0, ps, top, syms, choices)
    requires SelectsOk(k, ps, Post([top])) && UnwrittenUnset(k, w)
    ensures MinReady(k, w)
  {
    forall s | 0 <= s < |k.syms| && w.syms[s].vis != Some(0) ensures ExprVal(k, w, k.syms[s].directDep) != Some(0) {
      VisibleNeedsDirect(k, w, ps0, ps, top, syms, choices, s);
    }
    forall s | 0 <= s < |k.syms| && !BoolLike(k.syms[s].kind) && k.syms[s].kind != Unknown
      ensures k.syms[s].revDep == Use(Known(0))
    {
      assert SymAssembled(k.syms[s], syms[s], PromptsOf(ps, Post([top]), OwnSym(s)));
      NotSelected(ps, Post([top]), s);
    }
  }

  // ---- Defaults and ranges ----

  /** The symbols of an assembled tree have the defaults and ranges of their own nodes, in node order, and the choices their defaults. */
  lemma AssembledLists(k: Kconf, ps0: seq<Props>, ps: seq<Props>, top: Tree, syms: seq<ItemProps>, choices: seq<ItemProps>)
    requires Assembled(k, ps0, ps, top, syms, choices)
    ensures forall s | 0 <= s < |k.syms| ::
              && k.syms[s].defaults == DefaultsOf(ps, Post([top]), OwnSym(s))
              && k.syms[s].ranges == RangesOf(ps, Post([top]), OwnSym(s))
    ensures forall c | 0 <= c < |k.choices| ::
              var all := DefaultsOf(ps, Post([top]), OwnChoice(c));
              && |k.choices[c].defaults| == |all|
              && forall i | 0 <= i < |all| ::
                   all[i] == Guarded(Use(Sym(k.choices[c].defaults[i].item)), k.choices[c].defaults[i].cond)
  {
    var order := Post([top]);
    forall s | 0 <= s < |k.syms|
      ensures k.syms[s].defaults == DefaultsOf(ps, order, OwnSym(s)) && k.syms[s].ranges == RangesOf(ps, order, OwnSym(s))
    {
      assert SymAssembled(k.syms[s], syms[s], PromptsOf(ps, order, OwnSym(s)));
      ListMeaning(OwnSym(s), ps, order);
    }
    forall c | 0 <= c < |k.choices| ensures ChoiceAssembled(k.choices[c], choices[c], PromptsOf(ps, order, OwnChoice(c))) {
      ListMeaning(OwnChoice(c), ps, order);
    }
    forall c | 0 <= c < |k.choices| ensures choices[c].defaults == DefaultsOf(ps, order, OwnChoice(c)) {
      ListMeaning(OwnChoice(c), ps, order);
    }
  }

  lemma {:induction false} DefaultsAppend(ps: seq<Props>, a: seq<nat>, b: seq<nat>, z: Owner)
    ensures DefaultsOf(ps, a + b, z) == DefaultsOf(ps, a, z) + DefaultsOf(ps, b, z)
    decreases |a|
  {
    if a == [] {
      assert a + b == b;
    } else {
      assert (a + b)[1..] == a[1..] + b;
      DefaultsAppend(ps, a[1..], b, z);
    }
  }

  /** Where a node with the given defaults stands in the menu, the item has them at the corresponding place. */
  lemma NodeDefaults(
    k: Kconf, w: State, ps0: seq<Props>, ps: seq<Props>, top: Tree, syms: seq<ItemProps>, choices: seq<ItemProps>,
    before: seq<nat>, i: nat, after: seq<nat>, s: nat) returns (around: seq<nat>)
    requires WellFormed(k) && Solves(k, w) && MenuInTree(k, ps0) && Assembled(k, ps0, ps, top, syms, choices)
    requires Post([top]) == before + [i] + after && s < |k.syms| && PropsOf(ps0, i).owner == OwnSym(s)
    requires CondsKnown(k, w, PropsOf(ps0, i).defaults)
    ensures Located([top], [], i, around)
    ensures var first, own, last := DefaultsOf(ps, before, OwnSym(s)), PropsOf(ps, i).defaults, DefaultsOf(ps, after, OwnSym(s));
      && k.syms[s].defaults == first + own + last
      && Limited(k, w, PropsOf(ps0, i).defaults, own, Limits(ps0, i, around))
  {
    assert i in Post([top]);
    CompiledOwner(ps0, ps, top, i);
    around := ItemLocated(ps0, ps, top, i);
    LimitsKnown(k, w, ps0, i, around);
    PropsMeaning(k, w, ps0, i, around);
    AssembledLists(k, ps0, ps, top, syms, choices);
    DefaultsAround(ps, before, i, after, OwnSym(s));
  }

  lemma CompiledOwner(ps0: seq<Props>, ps: seq<Props>, top: Tree, i: nat)
    requires Final(ps0, ps, [top], []) && i in Post([top])
    ensures PropsOf(ps, i).owner == PropsOf(ps0, i).owner
  {
    PostIds([top]);
    var around := IsLocated([top], [], i);
    LocatedFinal(ps0, ps, [top], [], i, around);
    CompiledKeeps(ps0, i, around);
  }

  lemma DefaultsAround(ps: seq<Props>, before: seq<nat>, i: nat, after: seq<nat>, z: Owner)
    requires PropsOf(ps, i).owner == z
    ensures DefaultsOf(ps, before + [i] + after, z) == DefaultsOf(ps, before, z) + PropsOf(ps, i).defaults + DefaultsOf(ps, after, z)
  {
    DefaultsAppend(ps, before + [i], after, z);
    DefaultsAppend(ps, before, [i], z);
    assert [i][1..] == [] && DefaultsOf(ps, [], z) == [];
    Joined(PropsOf(ps, i).defaults, [], []);
  }
}
