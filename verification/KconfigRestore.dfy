/**
  When saving the values of some symbols is enough to get all values back.
  `Enough` is what a writer must see to: a symbol it leaves out has to get its
  value from its defaults alone, and a choice it leaves out has to select the
  same symbol by default.  No symbol is named MODULES here, so m never appears
  as a visibility, a mode or a value.
 */
module KconfigRestore {
  import opened Common
  import opened KconfigModel
  import opened KconfigReads
  import opened KconfigValues
  import opened KconfigCaching
  import opened KconfigSettings
  import opened KconfigChoices

  ghost predicate NoModules(k: Kconf) {
    k.modules.Text?
  }

  /** A tree and a complete table of its values under valid settings. */
  ghost predicate Table(k: Kconf, rank: Item -> nat, top: nat, w: State) {
    && WellFormed(k) && Ranked(k, rank, top) && Propagated(k) && NoModules(k)
    && Solves(k, w) && PicksMembers(k, w)
    && (forall c | 0 <= c < |k.choices| :: BoolMembers(k, c))
    && (forall s | 0 <= s < |k.syms| && w.syms[s].user.Some? :: ValidFor(k, k.syms[s].kind, w.syms[s].user.value))
    && (forall c | 0 <= c < |k.choices| && w.choices[c].user.Some? ::
          ModeAssignable(k.choices[c].kind, w.choices[c].user.value))
  }

  function Without(w: State, s: nat): State
    requires s < |w.syms|
  {
    WithSym(w, s, w.syms[s].(user := None))
  }

  function StringIn(w: State, s: nat): string {
    if s < |w.syms| && w.syms[s].str.Some? then w.syms[s].str.value else ""
  }

  /** The user value that loading the saved value of a symbol leaves. */
  function SavedValue(k: Kconf, w: State, s: nat): Option<Value>
    requires s < |k.syms|
  {
    if BoolLike(k.syms[s].kind) then Some(Num(ValueIn(w, s)))
    else if ValidFor(k, k.syms[s].kind, Txt(StringIn(w, s))) then Some(Txt(StringIn(w, s)))
    else None
  }

  ghost predicate SavedY(k: Kconf, w: State, saved: set<nat>, c: nat, s: nat)
    requires c < |k.choices|
  {
    s in k.choices[c].syms && s in saved && ValueIn(w, s) == 2
  }

  /** w' has the user settings that loading the saved symbols of w leaves. */
  ghost predicate LoadedFrom(k: Kconf, w: State, w': State, saved: set<nat>) {
    && Fits(k, w) && Fits(k, w')
    && (forall s | 0 <= s < |k.syms| && k.syms[s].choice.None? && k.syms[s].kind != Unknown ::
          w'.syms[s].user == if s in saved then SavedValue(k, w, s) else None)
    && (forall c | 0 <= c < |k.choices| ::
          if exists s :: SavedY(k, w, saved, c, s) then
            && w'.choices[c].picked.Some? && SavedY(k, w, saved, c, w'.choices[c].picked.value)
            && w'.choices[c].user == if BoolLike(k.choices[c].kind) then Some(2) else None
          else w'.choices[c].picked == None && w'.choices[c].user == None)
  }

  ghost predicate SymEnough(k: Kconf, w: State, saved: set<nat>, s: nat)
    requires Fits(k, w) && s < |k.syms|
  {
    k.syms[s].choice.None? && w.syms[s].vis != Some(0) && s !in saved ==>
      if BoolLike(k.syms[s].kind) then
        var r := SymTri(k, Without(w, s), s);
        r.Some? && r.value.0 == ValueIn(w, s)
      else if k.syms[s].kind != Unknown then
        var r := SymStr(k, Without(w, s), s);
        r.Some? && r.value.0 == StringIn(w, s)
      else true
  }

  ghost predicate ChoiceEnough(k: Kconf, w: State, saved: set<nat>, c: nat)
    requires Fits(k, w) && c < |k.choices|
  {
    ModeOf(k, w, c) == Some(2) ==>
      && (k.choices[c].optional ==> exists s :: SavedY(k, w, saved, c, s))
      && (forall x | w.choices[c].sel == Some(Some(x)) && x !in saved :: SelFromDefaults(k, w, c) == Some(Some(x)))
  }

  ghost predicate Enough(k: Kconf, w: State, saved: set<nat>) {
    && Fits(k, w)
    && (forall s | 0 <= s < |k.syms| :: SymEnough(k, w, saved, s))
    && (forall c | 0 <= c < |k.choices| :: ChoiceEnough(k, w, saved, c))
  }

  ghost predicate SymSame(w: State, w': State, s: nat)
    requires s < |w.syms| && s < |w'.syms|
  {
    w'.syms[s].vis == w.syms[s].vis && w'.syms[s].tri == w.syms[s].tri && w'.syms[s].str == w.syms[s].str
  }

  ghost predicate ChoiceSame(k: Kconf, w: State, w': State, c: nat)
    requires c < |w.choices| && c < |w'.choices|
  {
    && w'.choices[c].vis == w.choices[c].vis && w'.choices[c].sel == w.choices[c].sel
    && ModeOf(k, w', c) == ModeOf(k, w, c)
  }

  ghost predicate SameBelow(k: Kconf, rank: Item -> nat, w: State, w': State, r: nat)
    requires Fits(k, w) && Fits(k, w')
  {
    && (forall s | 0 <= s < |k.syms| && rank(ISym(s)) < r :: SymSame(w, w', s))
    && (forall c | 0 <= c < |k.choices| && rank(IChoice(c)) < r :: ChoiceSame(k, w, w', c))
  }

  ghost predicate Restoring(k: Kconf, rank: Item -> nat, top: nat, w: State, w': State, saved: set<nat>) {
    && Table(k, rank, top, w) && Table(k, rank, top, w') && LoadedFrom(k, w, w', saved) && Enough(k, w, saved)
  }

  // ---- Without modules there is no m ----

  lemma NoMChoiceVis(k: Kconf, w: State, c: nat)
    requires NoModules(k) && c < |k.choices| && ChoiceVis(k, w, c).Some?
    ensures ChoiceVis(k, w, c).value != 1
  {
  }

  lemma NoMSymVis(k: Kconf, w: State, s: nat)
    requires NoModules(k) && s < |k.syms| && SymVis(k, w, s).Some?
    ensures SymVis(k, w, s).value != 1
  {
  }

  /** A visible plain symbol is never m, and is at least what selects it. */
  lemma PlainTriBounds(k: Kconf, w: State, s: nat, vis: Tri)
    requires NoModules(k) && s < |k.syms| && s < |w.syms| && k.syms[s].choice.None?
    requires PlainTri(k, w, s, vis).Some?
    ensures PlainTri(k, w, s, vis).value.0 != 1
    ensures ExprVal(k, w, k.syms[s].revDep).Some?
    ensures PlainTri(k, w, s, vis).value.0 >= ExprVal(k, w, k.syms[s].revDep).value
  {
  }

  // ---- One rank ----

  lemma LowerSame(k: Kconf, rank: Item -> nat, top: nat, w: State, w': State, saved: set<nat>, r: nat, z: Item)
    requires Restoring(k, rank, top, w, w', saved) && SameBelow(k, rank, w, w', r)
    requires InTree(k, z) && rank(z) < r
    ensures KeepsItem(k, w, w', z)
  {
    match z
    case ISym(s) => assert SymSame(w, w', s);
    case IChoice(c) => assert ChoiceSame(k, w, w', c);
  }

  lemma ChoiceVisSame(k: Kconf, rank: Item -> nat, top: nat, w: State, w': State, saved: set<nat>, c: nat)
    requires Restoring(k, rank, top, w, w', saved) && c < |k.choices|
    requires SameBelow(k, rank, w, w', rank(IChoice(c)))
    ensures KeepsChoice(k, w, w', k.choices[c])
    ensures w'.choices[c].vis == w.choices[c].vis
    ensures w.choices[c].vis.Some? && w.choices[c].vis.value != 1
  {
    assert ChoiceRanked(k, rank, c);
    forall z | ChoiceMentions(k.choices[c], z) ensures KeepsItem(k, w, w', z) {
      LowerSame(k, rank, top, w, w', saved, rank(IChoice(c)), z);
    }
    assert ChoiceJustified(k, w, c) && ChoiceJustified(k, w', c) && ChoiceFull(w.choices[c]) && ChoiceFull(w'.choices[c]);
    ChoiceVisKept(k, w, w', c);
    NoMChoiceVis(k, w, c);
  }

  lemma TableChoice(k: Kconf, rank: Item -> nat, top: nat, w: State, c: nat)
    requires Table(k, rank, top, w) && c < |k.choices|
    ensures ChoiceTable(k, w, c) && ModeOf(k, w, c).Some? && ChoiceSel(k, w, c) == w.choices[c].sel
  {
    ModeKnown(k, w, c);
  }

  lemma ModeSame(k: Kconf, rank: Item -> nat, top: nat, w: State, w': State, saved: set<nat>, c: nat)
    requires Restoring(k, rank, top, w, w', saved) && c < |k.choices|
    requires w'.choices[c].vis == w.choices[c].vis && w.choices[c].vis.Some? && w.choices[c].vis.value != 1
    ensures ModeOf(k, w', c) == ModeOf(k, w, c)
  {
    TableChoice(k, rank, top, w, c);
    assert ChoiceEnough(k, w, saved, c);
    if exists s :: SavedY(k, w, saved, c, s) {
      var s :| SavedY(k, w, saved, c, s);
      AtMostOneY(k, w, c, s, s);
    }
  }

  lemma SymVisSame(k: Kconf, rank: Item -> nat, top: nat, w: State, w': State, saved: set<nat>, s: nat)
    requires Restoring(k, rank, top, w, w', saved) && s < |k.syms|
    requires SameBelow(k, rank, w, w', rank(ISym(s)))
    ensures KeepsSym(k, w, w', k.syms[s])
    ensures w'.syms[s].vis == w.syms[s].vis && w.syms[s].vis.Some? && w.syms[s].vis.value != 1
  {
    var d, r := k.syms[s], rank(ISym(s));
    assert SymRanked(k, rank, s) && SymWellFormed(k, d);
    if d.choice.Some? {
      ChoiceVisSame(k, rank, top, w, w', saved, d.choice.value);
      ModeSame(k, rank, top, w, w', saved, d.choice.value);
    }
    forall z | SymMentions(d, z) ensures KeepsItem(k, w, w', z) {
      if rank(z) < r { LowerSame(k, rank, top, w, w', saved, r, z); }
    }
    assert SymJustified(k, w, s) && SymJustified(k, w', s) && SymFull(w.syms[s]) && SymFull(w'.syms[s]);
    SymVisKept(k, w, w', s);
    NoMSymVis(k, w, s);
  }

  lemma MemberVisSame(k: Kconf, rank: Item -> nat, top: nat, w: State, w': State, saved: set<nat>, c: nat, s: nat)
    requires Restoring(k, rank, top, w, w', saved) && c < |k.choices| && s in k.choices[c].syms
    requires SameBelow(k, rank, w, w', rank(IChoice(c)))
    ensures KeepsVis(w, w', s) && VisOf(w', s) == VisOf(w, s)
  {
    MemberInTree(k, c, s);
    assert SymRanked(k, rank, s);
    SymVisSame(k, rank, top, w, w', saved, s);
  }

  lemma SelectionSame(k: Kconf, rank: Item -> nat, top: nat, w: State, w': State, saved: set<nat>, c: nat)
    requires Restoring(k, rank, top, w, w', saved) && c < |k.choices|
    requires SameBelow(k, rank, w, w', rank(IChoice(c)))
    ensures ChoiceSame(k, w, w', c)
  {
    var d := k.choices[c];
    ChoiceVisSame(k, rank, top, w, w', saved, c);
    ModeSame(k, rank, top, w, w', saved, c);
    TableChoice(k, rank, top, w, c);
    TableChoice(k, rank, top, w', c);
    forall s | s in d.syms ensures KeepsVis(w, w', s) && VisOf(w', s) == VisOf(w, s) {
      MemberVisSame(k, rank, top, w, w', saved, c, s);
    }
    assert ChoiceWellFormed(k, c);
    assert KeepsMembers(w, w', d);
    if ModeOf(k, w, c) == Some(2) { YSelectionSame(k, rank, top, w, w', saved, c); }
  }

  lemma YSelectionSame(k: Kconf, rank: Item -> nat, top: nat, w: State, w': State, saved: set<nat>, c: nat)
    requires Restoring(k, rank, top, w, w', saved) && c < |k.choices|
    requires ChoiceTable(k, w, c) && ChoiceTable(k, w', c)
    requires ModeOf(k, w, c) == Some(2) && ModeOf(k, w', c) == Some(2)
    requires KeepsChoice(k, w, w', k.choices[c]) && KeepsMembers(w, w', k.choices[c])
    requires forall s | s in k.choices[c].syms :: VisOf(w', s) == VisOf(w, s)
    ensures w'.choices[c].sel == w.choices[c].sel
  {
    assert ChoiceEnough(k, w, saved, c);
    ModeKnown(k, w', c);
    SelectionVisible(k, w, c);
    SelectionVisible(k, w', c);
    if w.choices[c].sel.value.Some? {
      var x := w.choices[c].sel.value.value;
      YModeVis(k, w, c, x);
      if x in saved {
        assert SavedY(k, w, saved, c, x);
        AtMostOneY(k, w, c, x, w'.choices[c].picked.value);
      } else {
        if exists s :: SavedY(k, w, saved, c, s) {
          var s :| SavedY(k, w, saved, c, s);
          AtMostOneY(k, w, c, x, s);
        }
        SelFromDefaultsKept(k, w, w', c);
      }
    }
  }

  lemma SavedTriSame(k: Kconf, w: State, w': State, s: nat)
    requires NoModules(k) && s < |k.syms| && s < |w.syms| && s < |w'.syms| && k.syms[s].choice.None?
    requires KeepsSym(k, w, w', k.syms[s])
    requires PlainTri(k, w, s, 2).Some? && w'.syms[s].user == Some(Num(PlainTri(k, w, s, 2).value.0))
    ensures PlainTri(k, w', s, 2).Some? && PlainTri(k, w', s, 2).value.0 == PlainTri(k, w, s, 2).value.0
  {
    PlainTriBounds(k, w, s, 2);
    KeepsSymExprs(k, w, w', k.syms[s]);
    ExprKept(k, w, w', k.syms[s].revDep);
  }

  lemma WithoutKeeps(k: Kconf, w: State, w': State, s: nat)
    requires s < |k.syms| && s < |w.syms| && KeepsSym(k, w, w', k.syms[s])
    ensures KeepsSym(k, Without(w, s), w', k.syms[s])
  {
    forall z | SymMentions(k.syms[s], z) ensures KeepsItem(k, Without(w, s), w', z) {
      assert KeepsItem(k, w, w', z);
    }
  }

  lemma PlainSymTriSame(k: Kconf, rank: Item -> nat, top: nat, w: State, w': State, saved: set<nat>, s: nat)
    requires Restoring(k, rank, top, w, w', saved) && s < |k.syms|
    requires KeepsSym(k, w, w', k.syms[s]) && w'.syms[s].vis == w.syms[s].vis && w.syms[s].vis != Some(1)
    requires BoolLike(k.syms[s].kind) && k.syms[s].choice.None?
    ensures SymSame(w, w', s)
  {
    assert SymJustified(k, w, s) && SymJustified(k, w', s) && SymFull(w.syms[s]) && SymFull(w'.syms[s]);
    assert SymEnough(k, w, saved, s);
    var vis := w.syms[s].vis.value;
    if vis == 0 {
      PlainTriKept(k, w, w', s, vis);
    } else if s in saved {
      SavedTriSame(k, w, w', s);
    } else {
      WithoutKeeps(k, w, w', s);
      PlainTriKept(k, Without(w, s), w', s, vis);
    }
  }

  lemma SavedNumberSame(k: Kconf, w: State, w': State, s: nat, vis: Tri)
    requires s < |k.syms| && s < |w.syms| && s < |w'.syms| && !BoolLike(k.syms[s].kind) && k.syms[s].kind != Unknown
    requires k.syms[s].kind != Str && vis > 0
    requires KeepsSym(k, w, w', k.syms[s])
    requires w.syms[s].user.Some? ==> ValidFor(k, k.syms[s].kind, w.syms[s].user.value)
    requires NumberStr(k, w, s, vis).Some? && NumberStr(k, w', s, vis).Some?
    requires var v := Txt(NumberStr(k, w, s, vis).value.0);
             w'.syms[s].user == if ValidFor(k, k.syms[s].kind, v) then Some(v) else None
    ensures NumberStr(k, w', s, vis).value.0 == NumberStr(k, w, s, vis).value.0
  {
    ActiveRangeKept(k, w, w', s);
    if DefaultStr(k, w, k.syms[s].defaults).Some? { DefaultStrKept(k, w, w', k.syms[s]); }
  }

  lemma PlainSymStrSame(k: Kconf, rank: Item -> nat, top: nat, w: State, w': State, saved: set<nat>, s: nat)
    requires Restoring(k, rank, top, w, w', saved) && s < |k.syms|
    requires KeepsSym(k, w, w', k.syms[s]) && w'.syms[s].vis == w.syms[s].vis && w.syms[s].vis != Some(1)
    requires !BoolLike(k.syms[s].kind) && k.syms[s].kind != Unknown && k.syms[s].choice.None?
    ensures SymSame(w, w', s)
  {
    assert SymJustified(k, w, s) && SymJustified(k, w', s) && SymFull(w.syms[s]) && SymFull(w'.syms[s]);
    assert SymEnough(k, w, saved, s);
    var vis := w.syms[s].vis.value;
    if vis == 0 {
      UnseenStrSame(k, w, w', s);
    } else if s in saved {
      if k.syms[s].kind != Str { SavedNumberSame(k, w, w', s, vis); }
    } else {
      WithoutKeeps(k, w, w', s);
      var w0 := Without(w, s);
      assert SameSelf(k, w0, w', s);
      SymStrKept(k, w0, w', s);
    }
  }

  lemma UnseenStrSame(k: Kconf, w: State, w': State, s: nat)
    requires s < |k.syms| && s < |w.syms| && s < |w'.syms| && k.syms[s].choice.None?
    requires KeepsSym(k, w, w', k.syms[s]) && w'.syms[s].vis == w.syms[s].vis == Some(0)
    requires SymStr(k, w, s).Some?
    ensures SymStr(k, w', s) == SymStr(k, w, s)
  {
    assert SameSelf(k, w, w', s);
    SymStrKept(k, w, w', s);
  }

  lemma MemberSame(k: Kconf, rank: Item -> nat, top: nat, w: State, w': State, saved: set<nat>, s: nat)
    requires Restoring(k, rank, top, w, w', saved) && s < |k.syms| && k.syms[s].choice.Some?
    requires SameBelow(k, rank, w, w', rank(ISym(s)))
    ensures SymSame(w, w', s)
  {
    var c := k.syms[s].choice.value;
    assert SymRanked(k, rank, s) && SymWellFormed(k, k.syms[s]);
    SymVisSame(k, rank, top, w, w', saved, s);
    SelectionSame(k, rank, top, w, w', saved, c);
    assert SymJustified(k, w, s) && SymJustified(k, w', s) && SymFull(w.syms[s]) && SymFull(w'.syms[s]);
    assert BoolMembers(k, c);
  }

  lemma SymAllSame(k: Kconf, rank: Item -> nat, top: nat, w: State, w': State, saved: set<nat>, s: nat)
    requires Restoring(k, rank, top, w, w', saved) && s < |k.syms|
    requires SameBelow(k, rank, w, w', rank(ISym(s)))
    ensures SymSame(w, w', s)
  {
    if k.syms[s].choice.Some? {
      MemberSame(k, rank, top, w, w', saved, s);
    } else {
      SymVisSame(k, rank, top, w, w', saved, s);
      if BoolLike(k.syms[s].kind) {
        PlainSymTriSame(k, rank, top, w, w', saved, s);
      } else if k.syms[s].kind != Unknown {
        PlainSymStrSame(k, rank, top, w, w', saved, s);
      } else {
        assert SymJustified(k, w, s) && SymJustified(k, w', s) && SymFull(w.syms[s]) && SymFull(w'.syms[s]);
      }
    }
  }

  lemma {:induction false} SameUpTo(k: Kconf, rank: Item -> nat, top: nat, w: State, w': State, saved: set<nat>, r: nat)
    requires Restoring(k, rank, top, w, w', saved)
    ensures SameBelow(k, rank, w, w', r)
  {
    if r > 0 {
      SameUpTo(k, rank, top, w, w', saved, r - 1);
      forall s | 0 <= s < |k.syms| && rank(ISym(s)) == r - 1 ensures SymSame(w, w', s) {
        SymAllSame(k, rank, top, w, w', saved, s);
      }
      forall c | 0 <= c < |k.choices| && rank(IChoice(c)) == r - 1 ensures ChoiceSame(k, w, w', c) {
        SelectionSame(k, rank, top, w, w', saved, c);
      }
    }
  }

  ghost predicate AllSame(k: Kconf, w: State, w': State)
    requires Fits(k, w) && Fits(k, w')
  {
    && (forall s | 0 <= s < |k.syms| :: SymSame(w, w', s))
    && (forall c | 0 <= c < |k.choices| :: ChoiceSame(k, w, w', c))
  }

  /** If enough was saved, loading it gives back every value, visibility, mode and selection. */
  lemma EnoughRestores(k: Kconf, rank: Item -> nat, top: nat, w: State, w': State, saved: set<nat>)
    requires Restoring(k, rank, top, w, w', saved)
    ensures AllSame(k, w, w')
  {
    SameUpTo(k, rank, top, w, w', saved, top);
    forall s | 0 <= s < |k.syms| ensures SymSame(w, w', s) { assert rank(ISym(s)) < top; }
    forall c | 0 <= c < |k.choices| ensures ChoiceSame(k, w, w', c) { assert rank(IChoice(c)) < top; }
  }
}
