/**
  Dropping cache entries after a change.  The walk follows the dependents of an
  item but skips any dependent without a cached visibility.  That is sound: what
  is left is justified under the new settings, because an entry that survives
  only used entries that survive.
 */
module KconfigInvalidate {
  import opened Common
  import opened KconfigModel
  import opened KconfigReads
  import opened KconfigValues
  import opened KconfigCaching

  /** y depends directly on z; a choice also depends on its symbols. */
  predicate DependsOn(k: Kconf, y: Item, z: Item) {
    match y
    case ISym(s) => s < |k.syms| && SymMentions(k.syms[s], z)
    case IChoice(c) => c < |k.choices| && (ChoiceMentions(k.choices[c], z) || (z.ISym? && z.s in k.choices[c].syms))
  }

  function DependentsOf(w: State, z: Item): set<Item> {
    match z
    case ISym(s) => if s < |w.syms| then w.syms[s].dependents else {}
    case IChoice(c) => if c < |w.choices| then w.choices[c].dependents else {}
  }

  /** The recorded dependents are exactly the items that depend on each item. */
  ghost predicate Linked(k: Kconf, w: State) {
    && Fits(k, w)
    && forall y, z | InTree(k, z) :: y in DependentsOf(w, z) <==> DependsOn(k, y, z)
  }

  predicate VisCached(w: State, z: Item) {
    match z
    case ISym(s) => s < |w.syms| && w.syms[s].vis.Some?
    case IChoice(c) => c < |w.choices| && w.choices[c].vis.Some?
  }

  function VisSet(w: State): set<Item> {
    (set s | 0 <= s < |w.syms| && w.syms[s].vis.Some? :: ISym(s)) +
    (set c | 0 <= c < |w.choices| && w.choices[c].vis.Some? :: IChoice(c))
  }

  lemma VisSetIs(w: State, z: Item)
    ensures z in VisSet(w) <==> VisCached(w, z)
  {
  }

  // ---- Cleared tables ----

  function ClearSym(x: SymState): SymState {
    x.(vis := None, tri := None, str := None, asn := None)
  }

  function ClearChoice(x: ChoiceState): ChoiceState {
    x.(vis := None, sel := None, asn := None)
  }

  ghost predicate IsCleared(w: State, w': State, gone: set<Item>) {
    && |w'.syms| == |w.syms| && |w'.choices| == |w.choices|
    && (forall s | 0 <= s < |w.syms| :: w'.syms[s] == if ISym(s) in gone then ClearSym(w.syms[s]) else w.syms[s])
    && (forall c | 0 <= c < |w.choices| ::
          w'.choices[c] == if IChoice(c) in gone then ClearChoice(w.choices[c]) else w.choices[c])
  }

  lemma ClearedTwice(w: State, w': State, w'': State, a: set<Item>, b: set<Item>)
    requires IsCleared(w, w', a) && IsCleared(w', w'', b)
    ensures IsCleared(w, w'', a + b)
  {
  }

  lemma ClearedVis(w: State, w': State, gone: set<Item>, z: Item)
    requires IsCleared(w, w', gone)
    ensures VisCached(w', z) <==> VisCached(w, z) && z !in gone
  {
  }

  lemma ClearedVisSet(w: State, w': State, gone: set<Item>)
    requires IsCleared(w, w', gone)
    ensures VisSet(w') == VisSet(w) - gone
  {
    forall z ensures z in VisSet(w') <==> z in VisSet(w) - gone {
      VisSetIs(w, z);
      VisSetIs(w', z);
      ClearedVis(w, w', gone, z);
    }
  }

  lemma ClearedLinked(k: Kconf, w: State, w': State, gone: set<Item>)
    requires IsCleared(w, w', gone) && Linked(k, w)
    ensures Linked(k, w')
  {
    forall z | InTree(k, z) ensures DependentsOf(w', z) == DependentsOf(w, z) {
    }
  }

  ghost predicate IsModules(k: Kconf, z: Item) {
    k.modules.Sym? && z == ISym(k.modules.s)
  }

  /** No dependent of a dropped item keeps a visibility; every item may depend on the modules symbol. */
  ghost predicate Swept(k: Kconf, w': State, x: Item) {
    forall y | InTree(k, y) && (DependsOn(k, y, x) || IsModules(k, x)) :: !VisCached(w', y)
  }

  ghost predicate AllSwept(k: Kconf, w': State, gone: set<Item>) {
    forall x | x in gone :: Swept(k, w', x)
  }

  lemma SweptStays(k: Kconf, w: State, w': State, gone: set<Item>, x: Item)
    requires IsCleared(w, w', gone) && Swept(k, w, x)
    ensures Swept(k, w', x)
  {
    forall y | InTree(k, y) && (DependsOn(k, y, x) || IsModules(k, x)) ensures !VisCached(w', y) {
      ClearedVis(w, w', gone, y);
    }
  }

  // ---- What survives a change is justified ----

  ghost predicate SameCaches(w: State, w': State) {
    && |w'.syms| == |w.syms| && |w'.choices| == |w.choices|
    && (forall s | 0 <= s < |w.syms| ::
          w'.syms[s] == w.syms[s].(user := w'.syms[s].user, wasSet := w'.syms[s].wasSet))
    && (forall c | 0 <= c < |w.choices| ::
          w'.choices[c] == w.choices[c].(user := w'.choices[c].user, picked := w'.choices[c].picked, wasSet := w'.choices[c].wasSet))
  }

  /**
    w1 is w with some settings changed, and w2 is w1 with entries dropped.
    Changed choices are dropped; a changed symbol is dropped, or its choice is,
    or it can never be visible.
   */
  ghost predicate SweptChange(k: Kconf, w: State, w1: State, w2: State, gone: set<Item>) {
    && WellFormed(k) && Fits(k, w) && SameCaches(w, w1) && IsCleared(w1, w2, gone) && AllSwept(k, w2, gone)
    && (forall c | 0 <= c < |k.choices| ::
          w1.choices[c].user != w.choices[c].user || w1.choices[c].picked != w.choices[c].picked ==> IChoice(c) in gone)
    && (forall s | 0 <= s < |k.syms| && w1.syms[s].user != w.syms[s].user ::
          || ISym(s) in gone
          || NeverVisible(k.syms[s])
          || (k.syms[s].choice.Some? && IChoice(k.syms[s].choice.value) in gone))
  }

  lemma SurvivorKeeps(k: Kconf, w: State, w1: State, w2: State, gone: set<Item>, y: Item, z: Item)
    requires SweptChange(k, w, w1, w2, gone)
    requires InTree(k, y) && VisCached(w2, y) && DependsOn(k, y, z) && InTree(k, z)
    requires z.IChoice? && k.choices[z.c].kind == Tristate ==> KeepsModules(k, w, w2)
    ensures KeepsItem(k, w, w2, z)
  {
    assert z in gone ==> Swept(k, w2, z);
  }

  /** While anything has a visibility, the modules symbol was not dropped. */
  lemma SurvivorModules(k: Kconf, w: State, w1: State, w2: State, gone: set<Item>, y: Item)
    requires SweptChange(k, w, w1, w2, gone)
    requires InTree(k, y) && VisCached(w2, y)
    ensures KeepsModules(k, w, w2)
  {
    if k.modules.Sym? {
      var m := ISym(k.modules.s);
      assert m in gone ==> Swept(k, w2, m);
    }
  }

  lemma SurvivorChoice(k: Kconf, w: State, w1: State, w2: State, gone: set<Item>, s: nat)
    requires SweptChange(k, w, w1, w2, gone) && s < |k.syms| && VisCached(w2, ISym(s))
    requires k.syms[s].choice.Some? && !NeverVisible(k.syms[s])
    ensures IChoice(k.syms[s].choice.value) !in gone
  {
    assert SymWellFormed(k, k.syms[s]);
    var z := IChoice(k.syms[s].choice.value);
    assert z in gone ==> Swept(k, w2, z);
  }

  lemma SurvivorSym(k: Kconf, w: State, w1: State, w2: State, gone: set<Item>, s: nat)
    requires SweptChange(k, w, w1, w2, gone) && Justified(k, w) && s < |k.syms|
    requires VisCached(w2, ISym(s))
    ensures KeepsSym(k, w, w2, k.syms[s]) && SameSelf(k, w, w2, s)
  {
    var d := k.syms[s];
    SurvivorModules(k, w, w1, w2, gone, ISym(s));
    forall z | SymMentions(d, z) ensures KeepsItem(k, w, w2, z) {
      SurvivorKeeps(k, w, w1, w2, gone, ISym(s), z);
    }
    assert SymJustified(k, w, s);
    if NeverVisible(d) {
      NeverVisibleVis(k, w, d.prompts, |d.prompts|);
    } else if d.choice.Some? {
      SurvivorChoice(k, w, w1, w2, gone, s);
    }
  }

  lemma SurvivorSymJustified(k: Kconf, w: State, w1: State, w2: State, gone: set<Item>, s: nat)
    requires SweptChange(k, w, w1, w2, gone) && Justified(k, w) && s < |k.syms|
    ensures SymJustified(k, w2, s)
  {
    assert SymJustified(k, w, s) && SymWellFormed(k, k.syms[s]);
    if VisCached(w2, ISym(s)) {
      SurvivorSym(k, w, w1, w2, gone, s);
      SymVisKept(k, w, w2, s);
      if SymTri(k, w, s).Some? { SymTriKept(k, w, w2, s); }
      if SymStr(k, w, s).Some? { SymStrKept(k, w, w2, s); }
      if SymAsn(k, w, s).Some? { SymAsnKept(k, w, w2, s); }
    }
  }

  lemma SurvivorChoiceJustified(k: Kconf, w: State, w1: State, w2: State, gone: set<Item>, c: nat)
    requires SweptChange(k, w, w1, w2, gone) && Justified(k, w) && PicksMembers(k, w) && c < |k.choices|
    ensures ChoiceJustified(k, w2, c)
  {
    assert ChoiceJustified(k, w, c);
    if VisCached(w2, IChoice(c)) {
      var d := k.choices[c];
      SurvivorModules(k, w, w1, w2, gone, IChoice(c));
      forall z | ChoiceMentions(d, z) ensures KeepsItem(k, w, w2, z) {
        SurvivorKeeps(k, w, w1, w2, gone, IChoice(c), z);
      }
      forall m | m in d.syms ensures KeepsVis(w, w2, m) {
        MemberInTree(k, c, m);
        SurvivorKeeps(k, w, w1, w2, gone, IChoice(c), ISym(m));
        assert ISym(m) in gone ==> Swept(k, w2, ISym(m));
      }
      assert ChoiceWellFormed(k, c);
      assert KeepsMembers(w, w2, d);
      ChoiceVisKept(k, w, w2, c);
      if ChoiceSel(k, w, c).Some? { ChoiceSelKept(k, w, w2, c); }
      if ChoiceAsn(k, w, c).Some? { ChoiceAsnKept(k, w, w2, c); }
    }
  }

  /** Soundness of the walk: after a change, every entry that is left is right for the new settings. */
  lemma SweptJustified(k: Kconf, w: State, w1: State, w2: State, gone: set<Item>)
    requires SweptChange(k, w, w1, w2, gone) && Justified(k, w) && PicksMembers(k, w)
    ensures Justified(k, w2)
  {
    forall s | 0 <= s < |k.syms| ensures SymJustified(k, w2, s) {
      SurvivorSymJustified(k, w, w1, w2, gone, s);
    }
    forall c | 0 <= c < |k.choices| ensures ChoiceJustified(k, w2, c) {
      SurvivorChoiceJustified(k, w, w1, w2, gone, c);
    }
  }

  ghost predicate NothingCached(w: State) {
    && (forall s | 0 <= s < |w.syms| :: w.syms[s] == ClearSym(w.syms[s]))
    && (forall c | 0 <= c < |w.choices| :: w.choices[c] == ClearChoice(w.choices[c]))
  }

  lemma NothingCachedJustified(k: Kconf, w: State)
    requires Fits(k, w) && NothingCached(w)
    ensures Justified(k, w)
  {
    forall s | 0 <= s < |k.syms| ensures SymJustified(k, w, s) {
      assert w.syms[s] == ClearSym(w.syms[s]);
    }
    forall c | 0 <= c < |k.choices| ensures ChoiceJustified(k, w, c) {
      assert w.choices[c] == ClearChoice(w.choices[c]);
    }
  }
}
