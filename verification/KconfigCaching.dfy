/**
  Adding entries to a justified cache.  Filling one missing entry with what its
  rule gives keeps every other entry justified.
 */
module KconfigCaching {
  import opened Common
  import opened KconfigModel
  import opened KconfigReads
  import opened KconfigValues

  function WithSym(w: State, s: nat, x: SymState): State
    requires s < |w.syms|
  {
    w.(syms := w.syms[s := x])
  }

  function WithChoice(w: State, c: nat, x: ChoiceState): State
    requires c < |w.choices|
  {
    w.(choices := w.choices[c := x])
  }

  lemma SymStaysJustified(k: Kconf, w: State, w': State, s: nat)
    requires WellFormed(k) && Agrees(k, w, w') && s < |k.syms|
    requires w'.syms[s] == w.syms[s] && SymJustified(k, w, s)
    ensures SymJustified(k, w', s)
  {
    AgreesKeeps(k, w, w');
    assert SymWellFormed(k, k.syms[s]);
    if SymVis(k, w, s).Some? { SymVisKept(k, w, w', s); }
    if SymTri(k, w, s).Some? { SymTriKept(k, w, w', s); }
    if SymStr(k, w, s).Some? { SymStrKept(k, w, w', s); }
    if SymAsn(k, w, s).Some? { SymAsnKept(k, w, w', s); }
  }

  lemma ChoiceStaysJustified(k: Kconf, w: State, w': State, c: nat)
    requires WellFormed(k) && Agrees(k, w, w') && PicksMembers(k, w) && c < |k.choices|
    requires w'.choices[c] == w.choices[c] && ChoiceJustified(k, w, c)
    ensures ChoiceJustified(k, w', c)
  {
    AgreesKeeps(k, w, w');
    assert ChoiceAgrees(w, w', c);
    if ChoiceVis(k, w, c).Some? { ChoiceVisKept(k, w, w', c); }
    if ChoiceAsn(k, w, c).Some? { ChoiceAsnKept(k, w, w', c); }
    var p := w.choices[c].picked;
    if p.Some? { MemberInTree(k, c, p.value); }
    if ChoiceSel(k, w, c).Some? { ChoiceSelKept(k, w, w', c); }
  }

  lemma MemberInTree(k: Kconf, c: nat, s: nat)
    requires WellFormed(k) && c < |k.choices| && s in k.choices[c].syms
    ensures s < |k.syms| && k.syms[s].choice == Some(c)
  {
    assert ChoiceWellFormed(k, c);
    var i :| 0 <= i < |k.choices[c].syms| && k.choices[c].syms[i] == s;
  }

  lemma OthersStayJustified(k: Kconf, w: State, w': State, s: nat)
    requires WellFormed(k) && Agrees(k, w, w') && PicksMembers(k, w) && Justified(k, w) && s < |k.syms|
    requires w' == WithSym(w, s, w'.syms[s]) && SymJustified(k, w', s)
    ensures Justified(k, w')
  {
    forall t | 0 <= t < |k.syms| ensures SymJustified(k, w', t) {
      assert SymJustified(k, w, t);
      if t != s { SymStaysJustified(k, w, w', t); }
    }
    forall c | 0 <= c < |k.choices| ensures ChoiceJustified(k, w', c) {
      assert ChoiceJustified(k, w, c);
      ChoiceStaysJustified(k, w, w', c);
    }
  }

  lemma OthersStayJustifiedChoice(k: Kconf, w: State, w': State, c: nat)
    requires WellFormed(k) && Agrees(k, w, w') && PicksMembers(k, w) && Justified(k, w) && c < |k.choices|
    requires w' == WithChoice(w, c, w'.choices[c]) && ChoiceJustified(k, w', c)
    ensures Justified(k, w')
  {
    forall t | 0 <= t < |k.syms| ensures SymJustified(k, w', t) {
      assert SymJustified(k, w, t);
      SymStaysJustified(k, w, w', t);
    }
    forall t | 0 <= t < |k.choices| ensures ChoiceJustified(k, w', t) {
      assert ChoiceJustified(k, w, t);
      if t != c { ChoiceStaysJustified(k, w, w', t); }
    }
  }

  /** w' is w with more cached entries and nothing else changed. */
  ghost predicate Later(k: Kconf, w: State, w': State) {
    && Agrees(k, w, w') && Justified(k, w') && PicksMembers(k, w')
    && (forall s | 0 <= s < |w.syms| ::
          w'.syms[s].wasSet == w.syms[s].wasSet && w'.syms[s].dependents == w.syms[s].dependents)
    && (forall c | 0 <= c < |w.choices| ::
          w'.choices[c].wasSet == w.choices[c].wasSet && w'.choices[c].dependents == w.choices[c].dependents)
  }

  lemma LaterTransitive(k: Kconf, w: State, w': State, w'': State)
    requires Later(k, w, w') && Later(k, w', w'')
    ensures Later(k, w, w'')
  {
    AgreesTransitive(k, w, w', w'');
  }

  lemma LaterReflexive(k: Kconf, w: State)
    requires Justified(k, w) && PicksMembers(k, w)
    ensures Later(k, w, w)
  {
  }

  lemma CacheSymVis(k: Kconf, w: State, s: nat, v: Tri)
    requires WellFormed(k) && Justified(k, w) && PicksMembers(k, w) && s < |k.syms|
    requires SymVis(k, w, s) == Some(v)
    ensures Later(k, w, WithSym(w, s, w.syms[s].(vis := Some(v))))
  {
    var w' := WithSym(w, s, w.syms[s].(vis := Some(v)));
    assert SymJustified(k, w, s);
    if w.syms[s].vis.Some? {
      assert w' == w;
    } else {
      assert Agrees(k, w, w');
      AgreesKeeps(k, w, w');
      assert SymWellFormed(k, k.syms[s]);
      SymVisKept(k, w, w', s);
      OthersStayJustified(k, w, w', s);
    }
  }

  lemma CacheSymTri(k: Kconf, w: State, s: nat, v: Tri, write: bool)
    requires WellFormed(k) && Justified(k, w) && PicksMembers(k, w) && s < |k.syms| && BoolLike(k.syms[s].kind)
    requires SymTri(k, w, s) == Some((v, write))
    ensures Later(k, w, WithSym(w, s, w.syms[s].(tri := Some(v), write := write)))
  {
    var w' := WithSym(w, s, w.syms[s].(tri := Some(v), write := write));
    assert SymJustified(k, w, s);
    if w.syms[s].tri.Some? {
      assert w' == w;
    } else {
      assert Agrees(k, w, w');
      AgreesKeeps(k, w, w');
      assert SymWellFormed(k, k.syms[s]);
      SymTriKept(k, w, w', s);
      if SymVis(k, w, s).Some? { SymVisKept(k, w, w', s); }
      if SymAsn(k, w, s).Some? { SymAsnKept(k, w, w', s); }
      OthersStayJustified(k, w, w', s);
    }
  }

  /** Values that are constants of the type: n for a string or number, the name for an untyped symbol. */
  lemma CacheConstant(k: Kconf, w: State, s: nat, x: SymState)
    requires WellFormed(k) && Justified(k, w) && PicksMembers(k, w) && s < |k.syms|
    requires
      || (!BoolLike(k.syms[s].kind) && x == w.syms[s].(tri := Some(0)))
      || (!BoolLike(k.syms[s].kind) && x == w.syms[s].(asn := Some([])))
      || (k.syms[s].kind == Unknown && x == w.syms[s].(str := Some(k.syms[s].name)))
      || (BoolLike(k.syms[s].kind) && w.syms[s].tri.Some? && x == w.syms[s].(str := Some(TriName(w.syms[s].tri.value))))
    ensures Later(k, w, WithSym(w, s, x))
  {
    var w' := WithSym(w, s, x);
    assert SymJustified(k, w, s);
    assert Agrees(k, w, w');
    AgreesKeeps(k, w, w');
    assert SymWellFormed(k, k.syms[s]);
    if SymVis(k, w, s).Some? { SymVisKept(k, w, w', s); }
    if SymTri(k, w, s).Some? { SymTriKept(k, w, w', s); }
    if SymStr(k, w, s).Some? { SymStrKept(k, w, w', s); }
    if SymAsn(k, w, s).Some? { SymAsnKept(k, w, w', s); }
    OthersStayJustified(k, w, w', s);
  }

  lemma CacheSymStr(k: Kconf, w: State, s: nat, v: string, write: bool)
    requires WellFormed(k) && Justified(k, w) && PicksMembers(k, w) && s < |k.syms|
    requires !BoolLike(k.syms[s].kind) && k.syms[s].kind != Unknown
    requires SymStr(k, w, s) == Some((v, write))
    ensures Later(k, w, WithSym(w, s, w.syms[s].(str := Some(v), write := write)))
  {
    var w' := WithSym(w, s, w.syms[s].(str := Some(v), write := write));
    assert SymJustified(k, w, s);
    if w.syms[s].str.Some? {
      assert w' == w;
    } else {
      assert Agrees(k, w, w');
      AgreesKeeps(k, w, w');
      assert SymWellFormed(k, k.syms[s]);
      SymStrKept(k, w, w', s);
      if SymVis(k, w, s).Some? { SymVisKept(k, w, w', s); }
      OthersStayJustified(k, w, w', s);
    }
  }

  lemma CacheSymAsn(k: Kconf, w: State, s: nat, v: seq<Tri>)
    requires WellFormed(k) && Justified(k, w) && PicksMembers(k, w) && s < |k.syms| && BoolLike(k.syms[s].kind)
    requires SymAsn(k, w, s) == Some(v)
    ensures Later(k, w, WithSym(w, s, w.syms[s].(asn := Some(v))))
  {
    var w' := WithSym(w, s, w.syms[s].(asn := Some(v)));
    assert SymJustified(k, w, s);
    if w.syms[s].asn.Some? {
      assert w' == w;
    } else {
      assert Agrees(k, w, w');
      AgreesKeeps(k, w, w');
      assert SymWellFormed(k, k.syms[s]);
      SymAsnKept(k, w, w', s);
      if SymVis(k, w, s).Some? { SymVisKept(k, w, w', s); }
      if SymTri(k, w, s).Some? { SymTriKept(k, w, w', s); }
      OthersStayJustified(k, w, w', s);
    }
  }

  ghost predicate ChoiceEntryRight(k: Kconf, w: State, c: nat, x: ChoiceState)
    requires Fits(k, w) && c < |k.choices|
  {
    var y := w.choices[c];
    || (x.vis.Some? && x == y.(vis := x.vis) && ChoiceVis(k, w, c) == x.vis)
    || (x.sel.Some? && x == y.(sel := x.sel) && ChoiceSel(k, w, c) == x.sel)
    || (x.asn.Some? && x == y.(asn := x.asn) && ChoiceAsn(k, w, c) == x.asn)
  }

  lemma CacheChoice(k: Kconf, w: State, c: nat, x: ChoiceState)
    requires WellFormed(k) && Justified(k, w) && PicksMembers(k, w) && c < |k.choices|
    requires ChoiceEntryRight(k, w, c, x)
    ensures Later(k, w, WithChoice(w, c, x))
  {
    var w' := WithChoice(w, c, x);
    assert ChoiceJustified(k, w, c);
    assert Agrees(k, w, w');
    AgreesKeeps(k, w, w');
    assert ChoiceAgrees(w, w', c);
    if ChoiceVis(k, w, c).Some? { ChoiceVisKept(k, w, w', c); }
    if ChoiceAsn(k, w, c).Some? { ChoiceAsnKept(k, w, w', c); }
    var p := w.choices[c].picked;
    if p.Some? { MemberInTree(k, c, p.value); }
    if ChoiceSel(k, w, c).Some? { ChoiceSelKept(k, w, w', c); }
    OthersStayJustifiedChoice(k, w, w', c);
  }

  // ---- Results that a later state still gives ----

  lemma ExprStays(k: Kconf, w: State, w': State, e: Expr)
    requires WellFormed(k) && Later(k, w, w') && ExprVal(k, w, e).Some?
    requires forall z | Mentions(e, z) :: InTree(k, z)
    ensures ExprVal(k, w', e) == ExprVal(k, w, e)
  {
    AgreesKeeps(k, w, w');
    ExprKept(k, w, w', e);
  }

  lemma StrStays(k: Kconf, w: State, w': State, o: Operand)
    requires WellFormed(k) && Later(k, w, w') && StrOf(k, w, o).Some?
    ensures StrOf(k, w', o) == StrOf(k, w, o)
  {
    AgreesKeeps(k, w, w');
    if o.Sym? { assert KeepsItem(k, w, w', ISym(o.s)); }
  }

  lemma NumStays(k: Kconf, w: State, w': State, o: Operand)
    requires WellFormed(k) && Later(k, w, w') && NumOf(k, w, o).Some?
    ensures NumOf(k, w', o) == NumOf(k, w, o)
  {
    AgreesKeeps(k, w, w');
    if o.Sym? { assert KeepsItem(k, w, w', ISym(o.s)); }
  }

  lemma PromptVisStays(k: Kconf, w: State, w': State, prompts: seq<Expr>, n: nat)
    requires WellFormed(k) && Later(k, w, w') && n <= |prompts| && PromptVis(k, w, prompts, n).Some?
    requires forall j, z | 0 <= j < n && Mentions(prompts[j], z) :: InTree(k, z)
    ensures PromptVis(k, w', prompts, n) == PromptVis(k, w, prompts, n)
  {
    AgreesKeeps(k, w, w');
    PromptVisKept(k, w, w', prompts, n);
  }

  lemma FirstActiveStays<T>(k: Kconf, w: State, w': State, gs: seq<Guarded<T>>)
    requires WellFormed(k) && Later(k, w, w') && FirstActive(k, w, gs, 0).Some?
    requires forall j, z | 0 <= j < |gs| && Mentions(gs[j].cond, z) :: InTree(k, z)
    ensures FirstActive(k, w', gs, 0) == FirstActive(k, w, gs, 0)
  {
    AgreesKeeps(k, w, w');
    FirstActiveKept(k, w, w', gs, 0);
  }

  lemma ModeStays(k: Kconf, w: State, w': State, c: nat)
    requires WellFormed(k) && Later(k, w, w') && c < |k.choices| && ModeOf(k, w, c).Some?
    ensures ModeOf(k, w', c) == ModeOf(k, w, c)
  {
    AgreesKeeps(k, w, w');
    assert KeepsItem(k, w, w', IChoice(c));
  }

  /** Skipping entries whose condition is n. */
  lemma {:induction false} FirstActiveSkips<T>(k: Kconf, w: State, gs: seq<Guarded<T>>, from: nat, i: nat)
    requires from <= i <= |gs|
    requires forall j | from <= j < i :: ExprVal(k, w, gs[j].cond) == Some(0)
    requires i < |gs| ==> ExprVal(k, w, gs[i].cond).Some? && ExprVal(k, w, gs[i].cond).value > 0
    ensures FirstActive(k, w, gs, from) == Some(i)
    decreases i - from
  {
    if from < i { FirstActiveSkips(k, w, gs, from + 1, i); }
  }

  lemma {:induction false} FirstVisibleSkips(w: State, ss: seq<nat>, from: nat, i: nat)
    requires from <= i <= |ss|
    requires forall j | from <= j < i :: VisOf(w, ss[j]) == Some(0)
    requires i < |ss| ==> VisOf(w, ss[i]).Some? && VisOf(w, ss[i]).value > 0
    ensures FirstVisible(w, ss, from) == Some(if i < |ss| then Some(ss[i]) else None)
    decreases i - from
  {
    if from < i { FirstVisibleSkips(w, ss, from + 1, i); }
  }

  /** A choice default that is inactive or not visible. */
  ghost predicate DefaultSkipped(k: Kconf, w: State, d: Guarded<nat>) {
    || ExprVal(k, w, d.cond) == Some(0)
    || (ExprVal(k, w, d.cond).Some? && VisOf(w, d.item) == Some(0))
  }

  lemma DefaultSkippedStays(k: Kconf, w: State, w': State, d: Guarded<nat>)
    requires WellFormed(k) && Later(k, w, w') && DefaultSkipped(k, w, d)
    requires d.item < |k.syms| && forall z | Mentions(d.cond, z) :: InTree(k, z)
    ensures DefaultSkipped(k, w', d)
  {
    ExprStays(k, w, w', d.cond);
    assert SymAgrees(k, w, w', d.item);
  }

  lemma {:induction false} DefaultSelSkips(k: Kconf, w: State, ds: seq<Guarded<nat>>, from: nat, i: nat)
    requires from <= i <= |ds|
    requires forall j | from <= j < i :: DefaultSkipped(k, w, ds[j])
    requires i < |ds| ==> ExprVal(k, w, ds[i].cond).Some? && ExprVal(k, w, ds[i].cond).value > 0
    requires i < |ds| ==> VisOf(w, ds[i].item).Some? && VisOf(w, ds[i].item).value > 0
    ensures DefaultSel(k, w, ds, from) == Some(if i < |ds| then Some(ds[i].item) else None)
    decreases i - from
  {
    if from < i {
      assert DefaultSkipped(k, w, ds[from]);
      DefaultSelSkips(k, w, ds, from + 1, i);
    }
  }

  lemma DefaultSelStays(k: Kconf, w: State, w': State, c: nat)
    requires WellFormed(k) && Later(k, w, w') && c < |k.choices|
    requires DefaultSel(k, w, k.choices[c].defaults, 0).Some?
    ensures DefaultSel(k, w', k.choices[c].defaults, 0) == DefaultSel(k, w, k.choices[c].defaults, 0)
  {
    AgreesKeeps(k, w, w');
    DefaultSelKept(k, w, w', k.choices[c], 0);
  }

  lemma DefaultTriStays(k: Kconf, w: State, w': State, s: nat)
    requires WellFormed(k) && Later(k, w, w') && s < |k.syms| && DefaultTri(k, w, k.syms[s].defaults).Some?
    ensures DefaultTri(k, w', k.syms[s].defaults) == DefaultTri(k, w, k.syms[s].defaults)
  {
    AgreesKeeps(k, w, w');
    DefaultTriKept(k, w, w', k.syms[s]);
  }

  lemma BaseTriStays(k: Kconf, w: State, w': State, s: nat, vis: Tri)
    requires WellFormed(k) && Later(k, w, w') && s < |k.syms| && BaseTri(k, w, s, vis).Some?
    ensures BaseTri(k, w', s, vis) == BaseTri(k, w, s, vis)
  {
    AgreesKeeps(k, w, w');
    BaseTriKept(k, w, w', s, vis);
  }

  lemma NotTristateStays(k: Kconf, w: State, w': State, s: nat)
    requires WellFormed(k) && Later(k, w, w') && s < |k.syms| && NotTristate(k, w, s).Some?
    ensures NotTristate(k, w', s) == NotTristate(k, w, s)
  {
    AgreesKeeps(k, w, w');
    assert SymWellFormed(k, k.syms[s]);
    NotTristateKept(k, w, w', s);
  }

  lemma ActiveRangeStays(k: Kconf, w: State, w': State, s: nat)
    requires WellFormed(k) && Later(k, w, w') && s < |k.syms| && ActiveRange(k, w, s).Some?
    ensures ActiveRange(k, w', s) == ActiveRange(k, w, s)
  {
    AgreesKeeps(k, w, w');
    ActiveRangeKept(k, w, w', s);
  }

  lemma DefaultInTree(k: Kconf, c: nat, i: nat)
    requires WellFormed(k) && c < |k.choices| && i < |k.choices[c].defaults|
    ensures var d := k.choices[c].defaults[i];
            d.item < |k.syms| && forall z | Mentions(d.cond, z) :: InTree(k, z)
  {
    assert ChoiceWellFormed(k, c);
    var d := k.choices[c].defaults[i];
    MemberInTree(k, c, d.item);
    forall z | Mentions(d.cond, z) ensures InTree(k, z) {
      assert CondsMention(k.choices[c].defaults, z);
      assert ChoiceMentions(k.choices[c], z);
    }
  }

  lemma AllSkippedStay(k: Kconf, w0: State, w: State, w': State, c: nat, n: nat)
    requires WellFormed(k) && Later(k, w0, w) && Later(k, w, w') && c < |k.choices| && n <= |k.choices[c].defaults|
    requires forall j | 0 <= j < n :: DefaultSkipped(k, w, k.choices[c].defaults[j])
    ensures Later(k, w0, w')
    ensures forall j | 0 <= j < n :: DefaultSkipped(k, w', k.choices[c].defaults[j])
  {
    LaterTransitive(k, w0, w, w');
    forall j | 0 <= j < n ensures DefaultSkipped(k, w', k.choices[c].defaults[j]) {
      DefaultInTree(k, c, j);
      DefaultSkippedStays(k, w, w', k.choices[c].defaults[j]);
    }
  }

  lemma AllHiddenStay(k: Kconf, w0: State, w: State, w': State, c: nat, n: nat)
    requires WellFormed(k) && Later(k, w0, w) && Later(k, w, w') && c < |k.choices| && n <= |k.choices[c].syms|
    requires forall j | 0 <= j < n :: VisOf(w, k.choices[c].syms[j]) == Some(0)
    ensures Later(k, w0, w')
    ensures forall j | 0 <= j < n :: VisOf(w', k.choices[c].syms[j]) == Some(0)
  {
    LaterTransitive(k, w0, w, w');
    forall j | 0 <= j < n ensures VisOf(w', k.choices[c].syms[j]) == Some(0) {
      MemberInTree(k, c, k.choices[c].syms[j]);
      assert SymAgrees(k, w, w', k.choices[c].syms[j]);
    }
  }
}
