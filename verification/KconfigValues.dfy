/**
  The values of a Kconfig tree.  `Justified` says that every cached entry is what
  the rules give from the other entries; `Solves` says that in addition nothing
  is missing.  On a tree whose dependencies can be ranked, a complete table
  exists (a recursion of bounded depth finds it), it is unique for given user
  settings, and every justified cache agrees with it.
 */
module KconfigValues {
  import opened Common
  import opened KconfigModel
  import opened KconfigReads

  predicate InTree(k: Kconf, z: Item) {
    match z
    case ISym(s) => s < |k.syms|
    case IChoice(c) => c < |k.choices|
  }

  ghost predicate ExprInTree(k: Kconf, e: Expr) {
    forall z | Mentions(e, z) :: InTree(k, z)
  }

  /** What holds of every tree that the parser and the finalizing pass produce. */
  ghost predicate WellFormed(k: Kconf) {
    && (k.modules.Sym? ==> k.modules.s < |k.syms|)
    && (forall s, z | 0 <= s < |k.syms| && SymMentions(k.syms[s], z) :: InTree(k, z))
    && (forall c, z | 0 <= c < |k.choices| && ChoiceMentions(k.choices[c], z) :: InTree(k, z))
    && (forall s | 0 <= s < |k.syms| :: SymWellFormed(k, k.syms[s]))
    && (forall s | 0 <= s < |k.syms| && k.syms[s].choice.Some? :: s in k.choices[k.syms[s].choice.value].syms)
    && (forall c | 0 <= c < |k.choices| :: ChoiceWellFormed(k, c))
  }

  ghost predicate SymWellFormed(k: Kconf, d: Symbol) {
    && InsideItsChoice(d)
    && (d.choice.Some? ==> d.choice.value < |k.choices|)
    && (!BoolLike(d.kind) && d.kind != Unknown ==> forall i | 0 <= i < |d.defaults| :: d.defaults[i].item.Use?)
  }

  /** Members belong to one choice only, and choice defaults are members. */
  ghost predicate ChoiceWellFormed(k: Kconf, c: nat)
    requires c < |k.choices|
  {
    && (forall i | 0 <= i < |k.choices[c].syms| ::
          k.choices[c].syms[i] < |k.syms| && k.syms[k.choices[c].syms[i]].choice == Some(c))
    && (forall i | 0 <= i < |k.choices[c].defaults| :: k.choices[c].defaults[i].item in k.choices[c].syms)
  }

  // ---- Ranks ----

  ghost predicate SymRanked(k: Kconf, rank: Item -> nat, s: nat)
    requires s < |k.syms|
  {
    var d := k.syms[s];
    && (d.choice.Some? ==> rank(ISym(s)) == rank(IChoice(d.choice.value)))
    && (d.kind == Tristate && k.modules.Sym? ==> rank(ISym(k.modules.s)) < rank(ISym(s)))
    && (forall z | SymMentions(d, z) ::
          rank(z) < rank(ISym(s)) || (d.choice.Some? && z == IChoice(d.choice.value)))
  }

  ghost predicate ChoiceRanked(k: Kconf, rank: Item -> nat, c: nat)
    requires c < |k.choices|
  {
    && (k.choices[c].kind == Tristate && k.modules.Sym? ==> rank(ISym(k.modules.s)) < rank(IChoice(c)))
    && (forall z | ChoiceMentions(k.choices[c], z) :: rank(z) < rank(IChoice(c)))
  }

  /** No item depends on itself, a choice and its symbols counting as one item. */
  ghost predicate Ranked(k: Kconf, rank: Item -> nat, top: nat) {
    && (forall s | 0 <= s < |k.syms| :: rank(ISym(s)) < top && SymRanked(k, rank, s))
    && (forall c | 0 <= c < |k.choices| :: rank(IChoice(c)) < top && ChoiceRanked(k, rank, c))
  }

  // ---- Justified entries ----

  ghost predicate SymJustified(k: Kconf, w: State, s: nat)
    requires Fits(k, w) && s < |k.syms|
  {
    var d, x := k.syms[s], w.syms[s];
    && (x.vis.Some? ==> SymVis(k, w, s) == x.vis)
    && (if BoolLike(d.kind) then
          && (x.tri.Some? ==> SymTri(k, w, s) == Some((x.tri.value, x.write)))
          && (x.str.Some? ==> x.tri.Some? && x.str.value == TriName(x.tri.value))
          && (x.asn.Some? ==> SymAsn(k, w, s) == x.asn)
        else
          && (x.tri.Some? ==> x.tri.value == 0)
          && (x.asn.Some? ==> x.asn.value == [])
          && (x.str.Some? ==>
                if d.kind == Unknown then x.str.value == d.name
                else SymStr(k, w, s) == Some((x.str.value, x.write))))
  }

  ghost predicate ChoiceJustified(k: Kconf, w: State, c: nat)
    requires Fits(k, w) && c < |k.choices|
  {
    var x := w.choices[c];
    && (x.vis.Some? ==> ChoiceVis(k, w, c) == x.vis)
    && (x.sel.Some? ==> ChoiceSel(k, w, c) == x.sel)
    && (x.asn.Some? ==> ChoiceAsn(k, w, c) == x.asn)
  }

  ghost predicate Justified(k: Kconf, w: State) {
    && Fits(k, w)
    && (forall s | 0 <= s < |k.syms| :: SymJustified(k, w, s))
    && (forall c | 0 <= c < |k.choices| :: ChoiceJustified(k, w, c))
  }

  predicate SymFull(x: SymState) {
    x.vis.Some? && x.tri.Some? && x.str.Some? && x.asn.Some?
  }

  predicate ChoiceFull(x: ChoiceState) {
    x.vis.Some? && x.sel.Some? && x.asn.Some?
  }

  /** A complete table in which every value is the one its rule gives. */
  ghost predicate Solves(k: Kconf, w: State) {
    && Justified(k, w)
    && (forall s | 0 <= s < |w.syms| :: SymFull(w.syms[s]))
    && (forall c | 0 <= c < |w.choices| :: ChoiceFull(w.choices[c]))
  }

  // ---- User settings and agreement ----

  ghost predicate SameUser(w: State, w': State) {
    && |w.syms| == |w'.syms| && |w.choices| == |w'.choices|
    && (forall s | 0 <= s < |w.syms| :: w.syms[s].user == w'.syms[s].user)
    && (forall c | 0 <= c < |w.choices| ::
          w.choices[c].user == w'.choices[c].user && w.choices[c].picked == w'.choices[c].picked)
  }

  /** A picked symbol belongs to its choice. */
  ghost predicate PicksMembers(k: Kconf, w: State) {
    && Fits(k, w)
    && forall c | 0 <= c < |k.choices| && w.choices[c].picked.Some? :: w.choices[c].picked.value in k.choices[c].syms
  }

  predicate ValueCached(k: Kconf, w: State, s: nat)
    requires Fits(k, w) && s < |k.syms|
  {
    if BoolLike(k.syms[s].kind) then w.syms[s].tri.Some? else k.syms[s].kind != Unknown && w.syms[s].str.Some?
  }

  ghost predicate SymAgrees(k: Kconf, w: State, w': State, s: nat)
    requires Fits(k, w) && Fits(k, w') && s < |k.syms|
  {
    var x, y := w.syms[s], w'.syms[s];
    && (x.vis.Some? ==> y.vis == x.vis)
    && (x.tri.Some? ==> y.tri == x.tri)
    && (x.str.Some? ==> y.str == x.str)
    && (x.asn.Some? ==> y.asn == x.asn)
    && (ValueCached(k, w, s) ==> y.write == x.write)
  }

  ghost predicate ChoiceAgrees(w: State, w': State, c: nat)
    requires c < |w.choices| && c < |w'.choices|
  {
    var x, y := w.choices[c], w'.choices[c];
    && (x.vis.Some? ==> y.vis == x.vis)
    && (x.sel.Some? ==> y.sel == x.sel)
    && (x.asn.Some? ==> y.asn == x.asn)
  }

  /** Every entry of w is in w', with the same value. */
  ghost predicate Agrees(k: Kconf, w: State, w': State) {
    && Fits(k, w) && Fits(k, w') && SameUser(w, w')
    && (forall s | 0 <= s < |k.syms| :: SymAgrees(k, w, w', s))
    && (forall c | 0 <= c < |k.choices| :: ChoiceAgrees(w, w', c))
  }

  lemma AgreesTransitive(k: Kconf, w: State, w': State, w'': State)
    requires Agrees(k, w, w') && Agrees(k, w', w'')
    ensures Agrees(k, w, w'')
  {
    forall s | 0 <= s < |k.syms| ensures SymAgrees(k, w, w'', s) {
      assert SymAgrees(k, w, w', s) && SymAgrees(k, w', w'', s);
    }
    forall c | 0 <= c < |k.choices| ensures ChoiceAgrees(w, w'', c) {
      assert ChoiceAgrees(w, w', c) && ChoiceAgrees(w', w'', c);
    }
  }

  lemma AgreesKeeps(k: Kconf, w: State, w': State)
    requires Agrees(k, w, w') && WellFormed(k)
    ensures forall z | InTree(k, z) :: KeepsItem(k, w, w', z)
    ensures forall s | 0 <= s < |k.syms| :: KeepsSym(k, w, w', k.syms[s]) && SameSelf(k, w, w', s)
    ensures forall c | 0 <= c < |k.choices| :: KeepsChoice(k, w, w', k.choices[c]) && KeepsMembers(w, w', k.choices[c])
    ensures forall s | 0 <= s < |k.syms| :: KeepsVis(w, w', s)
    ensures KeepsModules(k, w, w')
  {
    forall s | 0 <= s < |k.syms| ensures KeepsValues(w, w', s) && KeepsVis(w, w', s) {
      assert SymAgrees(k, w, w', s);
    }
    forall z | InTree(k, z) ensures KeepsItem(k, w, w', z) {
      if z.IChoice? {
        assert ChoiceAgrees(w, w', z.c);
        ModeKept(k, w, w', z.c);
      }
    }
    forall s | 0 <= s < |k.syms| ensures SameSelf(k, w, w', s) {
      assert SymAgrees(k, w, w', s) && SymWellFormed(k, k.syms[s]);
      if k.syms[s].choice.Some? { assert ChoiceAgrees(w, w', k.syms[s].choice.value); }
    }
    forall c | 0 <= c < |k.choices| ensures KeepsMembers(w, w', k.choices[c]) {
      MembersInTree(k, c);
    }
  }

  lemma MembersInTree(k: Kconf, c: nat)
    requires WellFormed(k) && c < |k.choices|
    ensures forall i | 0 <= i < |k.choices[c].syms| :: k.choices[c].syms[i] < |k.syms|
    ensures forall i | 0 <= i < |k.choices[c].defaults| :: k.choices[c].defaults[i].item < |k.syms|
  {
    assert ChoiceWellFormed(k, c);
    forall i | 0 <= i < |k.choices[c].defaults| ensures k.choices[c].defaults[i].item < |k.syms| {
      var m := k.choices[c].defaults[i].item;
      var j :| 0 <= j < |k.choices[c].syms| && k.choices[c].syms[j] == m;
    }
  }

  // ---- A justified cache agrees with the complete table ----

  /** Agreement of all items ranked below r. */
  ghost predicate AgreesBelow(k: Kconf, rank: Item -> nat, w: State, w': State, r: nat)
    requires Fits(k, w) && Fits(k, w')
  {
    && (forall s | 0 <= s < |k.syms| && rank(ISym(s)) < r :: SymAgrees(k, w, w', s))
    && (forall c | 0 <= c < |k.choices| && rank(IChoice(c)) < r :: ChoiceAgrees(w, w', c))
  }

  ghost predicate Comparable(k: Kconf, rank: Item -> nat, top: nat, w: State, w': State) {
    WellFormed(k) && Ranked(k, rank, top) && Justified(k, w) && Solves(k, w') && SameUser(w, w') && PicksMembers(k, w)
  }

  lemma LowerKept(k: Kconf, rank: Item -> nat, top: nat, w: State, w': State, r: nat, z: Item)
    requires Comparable(k, rank, top, w, w') && AgreesBelow(k, rank, w, w', r)
    requires InTree(k, z) && rank(z) < r
    ensures KeepsItem(k, w, w', z)
  {
    match z
    case ISym(s) => assert SymAgrees(k, w, w', s);
    case IChoice(c) =>
      assert ChoiceAgrees(w, w', c) && ChoiceRanked(k, rank, c);
      if k.choices[c].kind == Tristate && k.modules.Sym? { assert SymAgrees(k, w, w', k.modules.s); }
  }

  lemma ModulesKept(k: Kconf, rank: Item -> nat, top: nat, w: State, w': State, r: nat)
    requires Comparable(k, rank, top, w, w') && AgreesBelow(k, rank, w, w', r)
    requires k.modules.Sym? ==> rank(ISym(k.modules.s)) < r
    ensures KeepsModules(k, w, w')
  {
    if k.modules.Sym? { assert SymAgrees(k, w, w', k.modules.s); }
  }

  lemma ChoiceVisAgrees(k: Kconf, rank: Item -> nat, top: nat, w: State, w': State, c: nat)
    requires Comparable(k, rank, top, w, w') && c < |k.choices|
    requires AgreesBelow(k, rank, w, w', rank(IChoice(c)))
    ensures KeepsChoice(k, w, w', k.choices[c])
    ensures w.choices[c].vis.Some? ==> w'.choices[c].vis == w.choices[c].vis
    ensures KeepsItem(k, w, w', IChoice(c))
  {
    var r := rank(IChoice(c));
    assert ChoiceRanked(k, rank, c);
    forall z | ChoiceMentions(k.choices[c], z) ensures KeepsItem(k, w, w', z) {
      LowerKept(k, rank, top, w, w', r, z);
    }
    if k.choices[c].kind == Tristate { ModulesKept(k, rank, top, w, w', r); }
    assert ChoiceJustified(k, w, c) && ChoiceJustified(k, w', c);
    if w.choices[c].vis.Some? { ChoiceVisKept(k, w, w', c); }
  }

  lemma SymVisAgrees(k: Kconf, rank: Item -> nat, top: nat, w: State, w': State, s: nat)
    requires Comparable(k, rank, top, w, w') && s < |k.syms|
    requires AgreesBelow(k, rank, w, w', rank(ISym(s)))
    ensures KeepsSym(k, w, w', k.syms[s])
    ensures w.syms[s].vis.Some? ==> w'.syms[s].vis == w.syms[s].vis
  {
    var r := rank(ISym(s));
    assert SymRanked(k, rank, s) && SymWellFormed(k, k.syms[s]);
    if k.syms[s].choice.Some? { ChoiceVisAgrees(k, rank, top, w, w', k.syms[s].choice.value); }
    forall z | SymMentions(k.syms[s], z) ensures KeepsItem(k, w, w', z) {
      if rank(z) < r { LowerKept(k, rank, top, w, w', r, z); }
    }
    if k.syms[s].kind == Tristate { ModulesKept(k, rank, top, w, w', r); }
    assert SymJustified(k, w, s) && SymJustified(k, w', s);
    if w.syms[s].vis.Some? { SymVisKept(k, w, w', s); }
  }

  lemma MemberVisAgrees(k: Kconf, rank: Item -> nat, top: nat, w: State, w': State, c: nat, s: nat)
    requires Comparable(k, rank, top, w, w') && c < |k.choices| && s in k.choices[c].syms
    requires AgreesBelow(k, rank, w, w', rank(IChoice(c)))
    ensures KeepsVis(w, w', s)
  {
    assert ChoiceWellFormed(k, c);
    var i :| 0 <= i < |k.choices[c].syms| && k.choices[c].syms[i] == s;
    assert SymRanked(k, rank, s);
    SymVisAgrees(k, rank, top, w, w', s);
  }

  lemma ChoiceAllAgrees(k: Kconf, rank: Item -> nat, top: nat, w: State, w': State, c: nat)
    requires Comparable(k, rank, top, w, w') && c < |k.choices|
    requires AgreesBelow(k, rank, w, w', rank(IChoice(c)))
    ensures ChoiceAgrees(w, w', c)
  {
    ChoiceVisAgrees(k, rank, top, w, w', c);
    var d := k.choices[c];
    assert ChoiceWellFormed(k, c);
    forall i | 0 <= i < |d.syms| ensures KeepsVis(w, w', d.syms[i]) {
      MemberVisAgrees(k, rank, top, w, w', c, d.syms[i]);
    }
    forall i | 0 <= i < |d.defaults| ensures KeepsVis(w, w', d.defaults[i].item) {
      MemberVisAgrees(k, rank, top, w, w', c, d.defaults[i].item);
    }
    if w.choices[c].picked.Some? { MemberVisAgrees(k, rank, top, w, w', c, w.choices[c].picked.value); }
    assert ChoiceJustified(k, w, c) && ChoiceJustified(k, w', c);
    if w.choices[c].sel.Some? { ChoiceSelKept(k, w, w', c); }
    if w.choices[c].asn.Some? { ChoiceAsnKept(k, w, w', c); }
  }

  lemma SymAllAgrees(k: Kconf, rank: Item -> nat, top: nat, w: State, w': State, s: nat)
    requires Comparable(k, rank, top, w, w') && s < |k.syms|
    requires AgreesBelow(k, rank, w, w', rank(ISym(s)))
    ensures SymAgrees(k, w, w', s)
  {
    var d := k.syms[s];
    assert SymRanked(k, rank, s) && SymWellFormed(k, d);
    SymVisAgrees(k, rank, top, w, w', s);
    if d.choice.Some? {
      ChoiceAllAgrees(k, rank, top, w, w', d.choice.value);
      ChoiceVisAgrees(k, rank, top, w, w', d.choice.value);
    }
    assert SameSelf(k, w, w', s);
    assert SymJustified(k, w, s) && SymJustified(k, w', s) && SymFull(w'.syms[s]);
    if BoolLike(d.kind) {
      if w.syms[s].tri.Some? { SymTriKept(k, w, w', s); }
      if w.syms[s].asn.Some? { SymAsnKept(k, w, w', s); }
    } else if d.kind != Unknown && w.syms[s].str.Some? {
      SymStrKept(k, w, w', s);
    }
  }

  lemma {:induction false} AgreesUpTo(k: Kconf, rank: Item -> nat, top: nat, w: State, w': State, r: nat)
    requires Comparable(k, rank, top, w, w')
    ensures AgreesBelow(k, rank, w, w', r)
  {
    if r > 0 {
      AgreesUpTo(k, rank, top, w, w', r - 1);
      forall s | 0 <= s < |k.syms| && rank(ISym(s)) == r - 1 ensures SymAgrees(k, w, w', s) {
        SymAllAgrees(k, rank, top, w, w', s);
      }
      forall c | 0 <= c < |k.choices| && rank(IChoice(c)) == r - 1 ensures ChoiceAgrees(w, w', c) {
        ChoiceAllAgrees(k, rank, top, w, w', c);
      }
    }
  }

  /** Coherence: whatever a justified cache holds is the value of an uncached computation. */
  lemma JustifiedAgrees(k: Kconf, rank: Item -> nat, top: nat, w: State, w': State)
    requires Comparable(k, rank, top, w, w')
    ensures Agrees(k, w, w')
  {
    AgreesUpTo(k, rank, top, w, w', top);
    forall s | 0 <= s < |k.syms| ensures SymAgrees(k, w, w', s) {
      assert rank(ISym(s)) < top;
    }
    forall c | 0 <= c < |k.choices| ensures ChoiceAgrees(w, w', c) {
      assert rank(IChoice(c)) < top;
    }
  }

  /** Two complete tables for the same user settings hold the same values. */
  lemma SolutionUnique(k: Kconf, rank: Item -> nat, top: nat, w: State, w': State)
    requires WellFormed(k) && Ranked(k, rank, top) && PicksMembers(k, w)
    requires Solves(k, w) && Solves(k, w') && SameUser(w, w')
    ensures Agrees(k, w, w') && Agrees(k, w', w)
  {
    JustifiedAgrees(k, rank, top, w, w');
    JustifiedAgrees(k, rank, top, w', w);
  }
}
