/** Recording which items depend on which. */
module KconfigLinks {
  import opened Common
  import opened KconfigModel
  import opened KconfigReads
  import opened KconfigValues
  import opened KconfigInvalidate

  ghost function Grown(old_: set<Item>, y: Item, more: bool): set<Item> {
    if more then old_ + {y} else old_
  }

  /** w' is w with y added to the dependents of the items in zs. */
  ghost predicate LinksAdded(w: State, w': State, y: Item, zs: iset<Item>) {
    && |w'.syms| == |w.syms| && |w'.choices| == |w.choices|
    && (forall s | 0 <= s < |w.syms| ::
          w'.syms[s] == w.syms[s].(dependents := Grown(w.syms[s].dependents, y, ISym(s) in zs)))
    && (forall c | 0 <= c < |w.choices| ::
          w'.choices[c] == w.choices[c].(dependents := Grown(w.choices[c].dependents, y, IChoice(c) in zs)))
  }

  lemma LinksAddedTwice(w: State, w': State, w'': State, y: Item, a: iset<Item>, b: iset<Item>)
    requires LinksAdded(w, w', y, a) && LinksAdded(w', w'', y, b)
    ensures LinksAdded(w, w'', y, a + b)
  {
  }

  lemma LinksAddedNone(w: State, y: Item, zs: iset<Item>)
    requires zs == iset{}
    ensures LinksAdded(w, w, y, zs)
  {
  }

  // ---- The items mentioned by the parts of a symbol or choice ----

  ghost function InExpr(e: Expr): iset<Item> {
    iset z | Mentions(e, z)
  }

  ghost function InOperand(o: Operand): iset<Item> {
    iset z | NamesSym(o, z)
  }

  ghost function InPrompts(prompts: seq<Expr>, n: nat): (r: iset<Item>)
    requires n <= |prompts|
    ensures forall z :: z in r <==> exists i | 0 <= i < n :: Mentions(prompts[i], z)
  {
    if n == 0 then iset{} else InPrompts(prompts, n - 1) + InExpr(prompts[n - 1])
  }

  ghost function InConds<T>(gs: seq<Guarded<T>>, n: nat): (r: iset<Item>)
    requires n <= |gs|
    ensures forall z :: z in r <==> exists i | 0 <= i < n :: Mentions(gs[i].cond, z)
  {
    if n == 0 then iset{} else InConds(gs, n - 1) + InExpr(gs[n - 1].cond)
  }

  ghost function InValues(gs: seq<Guarded<Expr>>, n: nat): (r: iset<Item>)
    requires n <= |gs|
    ensures forall z :: z in r <==> exists i | 0 <= i < n :: Mentions(gs[i].item, z)
  {
    if n == 0 then iset{} else InValues(gs, n - 1) + InExpr(gs[n - 1].item)
  }

  ghost function InBounds(gs: seq<Guarded<(Operand, Operand)>>, n: nat): (r: iset<Item>)
    requires n <= |gs|
    ensures forall z :: z in r <==> exists i | 0 <= i < n :: NamesSym(gs[i].item.0, z) || NamesSym(gs[i].item.1, z)
  {
    if n == 0 then iset{}
    else InBounds(gs, n - 1) + InOperand(gs[n - 1].item.0) + InOperand(gs[n - 1].item.1)
  }

  ghost function InDefaults(gs: seq<Guarded<Expr>>): iset<Item> {
    InValues(gs, |gs|) + InConds(gs, |gs|)
  }

  ghost function InRanges(gs: seq<Guarded<(Operand, Operand)>>): iset<Item> {
    InBounds(gs, |gs|) + InConds(gs, |gs|)
  }

  ghost function InDeps(d: Symbol): iset<Item> {
    InExpr(d.revDep) + InExpr(d.weakRevDep)
  }

  ghost function InSym(d: Symbol): (r: iset<Item>)
    ensures forall z :: z in r <==> SymMentions(d, z)
  {
    (InPrompts(d.prompts, |d.prompts|) + InDefaults(d.defaults)) + (InDeps(d) + (InRanges(d.ranges) + InExpr(d.directDep)))
  }

  ghost function InChoice(d: Choice): (r: iset<Item>)
    ensures forall z :: z in r <==> ChoiceMentions(d, z)
  {
    InPrompts(d.prompts, |d.prompts|) + InConds(d.defaults, |d.defaults|)
  }

  ghost function InMembers(ss: seq<nat>, n: nat): (r: iset<Item>)
    requires n <= |ss|
    ensures forall z :: z in r <==> z.ISym? && exists i | 0 <= i < n :: ss[i] == z.s
  {
    if n == 0 then iset{} else InMembers(ss, n - 1) + iset{ISym(ss[n - 1])}
  }

  ghost predicate NoLinks(w: State) {
    forall z :: DependentsOf(w, z) == {}
  }

  predicate RecordedSoFar(k: Kconf, y: Item, z: Item, ns: nat, nc: nat, nm: nat) {
    match y
    case ISym(s) => s < ns && s < |k.syms| && SymMentions(k.syms[s], z)
    case IChoice(c) =>
      c < |k.choices| && ((c < nc && ChoiceMentions(k.choices[c], z)) || (c < nm && z.ISym? && z.s in k.choices[c].syms))
  }

  /** w' is w with the dependents recorded for ns symbols, nc choices and the members of nm choices. */
  ghost predicate LinkedTo(k: Kconf, w: State, w': State, ns: nat, nc: nat, nm: nat) {
    && Fits(k, w) && Fits(k, w')
    && (forall s | 0 <= s < |w.syms| :: w'.syms[s] == w.syms[s].(dependents := w'.syms[s].dependents))
    && (forall c | 0 <= c < |w.choices| :: w'.choices[c] == w.choices[c].(dependents := w'.choices[c].dependents))
    && (forall y, z | InTree(k, z) :: y in DependentsOf(w', z) <==> RecordedSoFar(k, y, z, ns, nc, nm))
  }

  lemma LinkedNext(k: Kconf, w: State, w': State, w'': State, y: Item, zs: iset<Item>,
                   ns: nat, nc: nat, nm: nat, ns': nat, nc': nat, nm': nat)
    requires LinkedTo(k, w, w', ns, nc, nm) && LinksAdded(w', w'', y, zs)
    requires forall x, z :: RecordedSoFar(k, x, z, ns', nc', nm') <==> RecordedSoFar(k, x, z, ns, nc, nm) || (x == y && z in zs)
    ensures LinkedTo(k, w, w'', ns', nc', nm')
  {
    forall x, z | InTree(k, z) ensures x in DependentsOf(w'', z) <==> RecordedSoFar(k, x, z, ns', nc', nm') {
      assert DependentsOf(w'', z) == Grown(DependentsOf(w', z), y, z in zs);
    }
  }

  lemma LinkedNextSym(k: Kconf, w: State, w': State, w'': State, s: nat)
    requires s < |k.syms| && LinkedTo(k, w, w', s, 0, 0)
    requires LinksAdded(w', w'', ISym(s), InSym(k.syms[s]))
    ensures LinkedTo(k, w, w'', s + 1, 0, 0)
  {
    LinkedNext(k, w, w', w'', ISym(s), InSym(k.syms[s]), s, 0, 0, s + 1, 0, 0);
  }

  lemma LinkedNextChoice(k: Kconf, w: State, w': State, w'': State, c: nat)
    requires c < |k.choices| && LinkedTo(k, w, w', |k.syms|, c, 0)
    requires LinksAdded(w', w'', IChoice(c), InChoice(k.choices[c]))
    ensures LinkedTo(k, w, w'', |k.syms|, c + 1, 0)
  {
    LinkedNext(k, w, w', w'', IChoice(c), InChoice(k.choices[c]), |k.syms|, c, 0, |k.syms|, c + 1, 0);
  }

  lemma LinkedNextMembers(k: Kconf, w: State, w': State, w'': State, c: nat)
    requires c < |k.choices| && LinkedTo(k, w, w', |k.syms|, |k.choices|, c)
    requires LinksAdded(w', w'', IChoice(c), InMembers(k.choices[c].syms, |k.choices[c].syms|))
    ensures LinkedTo(k, w, w'', |k.syms|, |k.choices|, c + 1)
  {
    LinkedNext(k, w, w', w'', IChoice(c), InMembers(k.choices[c].syms, |k.choices[c].syms|),
               |k.syms|, |k.choices|, c, |k.syms|, |k.choices|, c + 1);
  }

  lemma LinkedToAll(k: Kconf, w: State, w': State)
    requires LinkedTo(k, w, w', |k.syms|, |k.choices|, |k.choices|)
    ensures Linked(k, w')
  {
    forall y, z | InTree(k, z) ensures y in DependentsOf(w', z) <==> DependsOn(k, y, z) {
      assert RecordedSoFar(k, y, z, |k.syms|, |k.choices|, |k.choices|) <==> DependsOn(k, y, z);
    }
  }
}
