/**
  Choices: at most one symbol of a choice is y, and which one.  This rests on the
  finalizing pass making the choice a conjunct of every prompt condition inside it.
 */
module KconfigChoices {
  import opened Common
  import opened KconfigModel
  import opened KconfigValues
  import opened KconfigCaching

  predicate HasConjunct(e: Expr, x: Expr) {
    e == x || (e.And? && (HasConjunct(e.l, x) || HasConjunct(e.r, x)))
  }

  /** Every prompt condition of a choice symbol is n or has the choice as a conjunct. */
  ghost predicate Propagated(k: Kconf) {
    forall s, i | 0 <= s < |k.syms| && k.syms[s].choice.Some? && 0 <= i < |k.syms[s].prompts| ::
      PromptGuarded(k.syms[s].prompts[i], k.syms[s].choice.value)
  }

  predicate PromptGuarded(e: Expr, c: nat) {
    e == Use(Known(0)) || HasConjunct(e, Mode(c))
  }

  lemma {:induction false} ConjunctBounds(k: Kconf, w: State, e: Expr, x: Expr)
    requires HasConjunct(e, x) && ExprVal(k, w, e).Some? && ExprVal(k, w, x).Some?
    ensures ExprVal(k, w, e).value <= ExprVal(k, w, x).value
  {
    if e != x {
      if HasConjunct(e.l, x) {
        ConjunctBounds(k, w, e.l, x);
      } else if ExprVal(k, w, e.l) != Some(0) {
        ConjunctBounds(k, w, e.r, x);
      }
    }
  }

  lemma {:induction false} PromptsBounded(k: Kconf, w: State, prompts: seq<Expr>, n: nat, c: nat, mode: Tri)
    requires n <= |prompts| && PromptVis(k, w, prompts, n).Some? && ModeOf(k, w, c) == Some(mode)
    requires forall i | 0 <= i < |prompts| :: PromptGuarded(prompts[i], c)
    ensures PromptVis(k, w, prompts, n).value <= mode
  {
    if n > 0 {
      PromptsBounded(k, w, prompts, n - 1, c, mode);
      if HasConjunct(prompts[n - 1], Mode(c)) { ConjunctBounds(k, w, prompts[n - 1], Mode(c)); }
    }
  }

  /** A choice all of whose symbols are bool or tristate. */
  ghost predicate BoolMembers(k: Kconf, c: nat)
    requires c < |k.choices|
  {
    forall s | s in k.choices[c].syms && s < |k.syms| :: BoolLike(k.syms[s].kind)
  }

  /** The value of a bool or tristate symbol in a complete table. */
  function ValueIn(w: State, s: nat): Tri {
    if s < |w.syms| && w.syms[s].tri.Some? then w.syms[s].tri.value else 0
  }

  ghost predicate ChoiceTable(k: Kconf, w: State, c: nat) {
    && WellFormed(k) && Propagated(k) && Solves(k, w) && PicksMembers(k, w)
    && c < |k.choices| && BoolMembers(k, c)
  }

  lemma MemberValue(k: Kconf, w: State, c: nat, s: nat)
    requires ChoiceTable(k, w, c) && s in k.choices[c].syms
    ensures s < |k.syms| && k.syms[s].choice == Some(c) && SymFull(w.syms[s])
    ensures SymVis(k, w, s) == w.syms[s].vis
    ensures SymTri(k, w, s).Some? && SymTri(k, w, s).value.0 == ValueIn(w, s)
    ensures ModeOf(k, w, c).Some? ==>
              PromptVis(k, w, k.syms[s].prompts, |k.syms[s].prompts|).value <= ModeOf(k, w, c).value
  {
    MemberInTree(k, c, s);
    assert SymFull(w.syms[s]) && SymJustified(k, w, s);
    if ModeOf(k, w, c).Some? {
      PromptsBounded(k, w, k.syms[s].prompts, |k.syms[s].prompts|, c, ModeOf(k, w, c).value);
    }
  }

  lemma ModeKnown(k: Kconf, w: State, c: nat)
    requires ChoiceTable(k, w, c)
    ensures ModeOf(k, w, c).Some?
    ensures ChoiceSel(k, w, c) == w.choices[c].sel
  {
    assert ChoiceFull(w.choices[c]) && ChoiceJustified(k, w, c);
    MoreModeKnown(k, w, c);
  }

  lemma MoreModeKnown(k: Kconf, w: State, c: nat)
    requires Fits(k, w) && c < |k.choices| && ChoiceSel(k, w, c).Some?
    ensures ModeOf(k, w, c).Some?
  {
  }

  /** In y mode every symbol of the choice is either not visible or visible as y. */
  lemma YModeVis(k: Kconf, w: State, c: nat, s: nat)
    requires ChoiceTable(k, w, c) && s in k.choices[c].syms && ModeOf(k, w, c) == Some(2)
    ensures s < |k.syms| && (w.syms[s].vis == Some(0) || w.syms[s].vis == Some(2))
    ensures ValueIn(w, s) == if w.syms[s].vis == Some(2) && w.choices[c].sel == Some(Some(s)) then 2 else 0
  {
    MemberValue(k, w, c, s);
    ModeKnown(k, w, c);
  }

  lemma {:induction false} DefaultSelVisible(k: Kconf, w: State, ds: seq<Guarded<nat>>, i: nat)
    requires i <= |ds| && DefaultSel(k, w, ds, i).Some?
    ensures var r := DefaultSel(k, w, ds, i).value;
            r.Some? ==> VisOf(w, r.value).Some? && VisOf(w, r.value).value > 0 && exists j | 0 <= j < |ds| :: ds[j].item == r.value
    decreases |ds| - i
  {
    if i < |ds| && DefaultSel(k, w, ds, i + 1).Some? { DefaultSelVisible(k, w, ds, i + 1); }
  }

  lemma {:induction false} FirstVisibleFound(w: State, ss: seq<nat>, i: nat)
    requires i <= |ss| && FirstVisible(w, ss, i).Some?
    ensures var r := FirstVisible(w, ss, i).value;
            if r.Some? then VisOf(w, r.value).Some? && VisOf(w, r.value).value > 0 && r.value in ss
            else forall j | i <= j < |ss| :: VisOf(w, ss[j]) == Some(0)
    decreases |ss| - i
  {
    if i < |ss| && VisOf(w, ss[i]) == Some(0) { FirstVisibleFound(w, ss, i + 1); }
  }

  /** In y mode the selection is a visible symbol of the choice, and there is one if any symbol is visible. */
  lemma SelectionVisible(k: Kconf, w: State, c: nat)
    requires ChoiceTable(k, w, c) && ModeOf(k, w, c) == Some(2)
    ensures var r := w.choices[c].sel;
            && r.Some?
            && (r.value.Some? ==> r.value.value in k.choices[c].syms && VisOf(w, r.value.value) != Some(0))
            && (r.value.None? ==> forall s | s in k.choices[c].syms :: VisOf(w, s) == Some(0))
  {
    ModeKnown(k, w, c);
    var d := k.choices[c];
    assert ChoiceWellFormed(k, c);
    if DefaultSel(k, w, d.defaults, 0).Some? { DefaultSelVisible(k, w, d.defaults, 0); }
    if FirstVisible(w, d.syms, 0).Some? { FirstVisibleFound(w, d.syms, 0); }
    assert ChoiceSel(k, w, c).Some?;
    forall s | s in d.syms ensures exists j | 0 <= j < |d.syms| :: d.syms[j] == s {
    }
  }

  /** A visible choice in y mode has exactly one y symbol, its selection; all others are n. */
  lemma YModeExclusive(k: Kconf, w: State, c: nat, v: nat) returns (s: nat)
    requires ChoiceTable(k, w, c) && ModeOf(k, w, c) == Some(2)
    requires v in k.choices[c].syms && VisOf(w, v) != Some(0)
    ensures s in k.choices[c].syms && ValueIn(w, s) == 2 && w.choices[c].sel == Some(Some(s))
    ensures forall t | t in k.choices[c].syms && t != s :: ValueIn(w, t) == 0
  {
    SelectionVisible(k, w, c);
    s := w.choices[c].sel.value.value;
    forall t | t in k.choices[c].syms ensures ValueIn(w, t) == if t == s then 2 else 0 {
      YModeVis(k, w, c, t);
    }
  }

  /** A choice in y mode without a visible symbol selects nothing. */
  lemma YModeEmpty(k: Kconf, w: State, c: nat)
    requires ChoiceTable(k, w, c) && ModeOf(k, w, c) == Some(2)
    requires forall s | s in k.choices[c].syms :: VisOf(w, s) == Some(0)
    ensures w.choices[c].sel == Some(None)
    ensures forall t | t in k.choices[c].syms :: ValueIn(w, t) == 0
  {
    SelectionVisible(k, w, c);
    forall t | t in k.choices[c].syms ensures ValueIn(w, t) == 0 {
      YModeVis(k, w, c, t);
    }
  }

  /** In m mode no symbol of the choice is y. */
  lemma MModeNoY(k: Kconf, w: State, c: nat, t: nat)
    requires ChoiceTable(k, w, c) && ModeOf(k, w, c) == Some(1) && t in k.choices[c].syms
    ensures ValueIn(w, t) <= 1
  {
    MemberValue(k, w, c, t);
    ModeKnown(k, w, c);
  }

  /** In n mode every symbol of the choice is n. */
  lemma NModeAllN(k: Kconf, w: State, c: nat, t: nat)
    requires ChoiceTable(k, w, c) && ModeOf(k, w, c) == Some(0) && t in k.choices[c].syms
    ensures ValueIn(w, t) == 0
  {
    MemberValue(k, w, c, t);
  }

  /** In every complete table, two symbols of one choice are never both y. */
  lemma AtMostOneY(k: Kconf, w: State, c: nat, s: nat, t: nat)
    requires ChoiceTable(k, w, c) && s in k.choices[c].syms && t in k.choices[c].syms
    requires ValueIn(w, s) == 2 && ValueIn(w, t) == 2
    ensures s == t && ModeOf(k, w, c) == Some(2) && w.choices[c].sel == Some(Some(s))
  {
    ModeKnown(k, w, c);
    var mode := ModeOf(k, w, c).value;
    if mode == 0 {
      NModeAllN(k, w, c, s);
    } else if mode == 1 {
      MModeNoY(k, w, c, s);
    } else {
      YModeVis(k, w, c, s);
      YModeVis(k, w, c, t);
    }
  }
}
