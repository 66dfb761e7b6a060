/**
  What the entries of a complete table are, said without the rules that compute
  them: visibilities, modes, selections and values, each in terms of the
  conditions of the tree, the user's settings and other entries of the table.
  The m of a bool item becomes y, and without modules there is no m at all.
 */
module KconfigMeaning {
  import opened Common
  import opened KconfigModel
  import opened KconfigReads
  import opened KconfigValues
  import opened KconfigFresh
  import opened KconfigCaching
  import opened KconfigRestore

  // ---- Conditions ----

  /** The value of an expression in a table that knows it. */
  function Val(k: Kconf, w: State, e: Expr): Tri {
    if ExprVal(k, w, e).Some? then ExprVal(k, w, e).value else 0
  }

  /** i is the first entry whose condition is not n, or |gs| if there is none. */
  ghost predicate FirstOn<T>(k: Kconf, w: State, gs: seq<Guarded<T>>, i: nat) {
    && i <= |gs| && (forall j | 0 <= j < i :: Val(k, w, gs[j].cond) == 0)
    && (i < |gs| ==> Val(k, w, gs[i].cond) != 0)
  }

  lemma {:induction false} FirstActiveIs<T>(k: Kconf, w: State, gs: seq<Guarded<T>>, i: nat, f: nat)
    requires i <= f && FirstOn(k, w, gs, f) && FirstActive(k, w, gs, i).Some?
    ensures FirstActive(k, w, gs, i) == Some(f)
    decreases f - i
  {
    if i < f { FirstActiveIs(k, w, gs, i + 1, f); }
  }

  /** m counts as y for an item of this kind. */
  ghost predicate NoM(k: Kconf, w: State, kind: Kind) {
    kind != Tristate || TriOf(k, w, k.modules) == Some(0)
  }

  function Promoted(v: Tri, noM: bool): Tri {
    if v == 1 && noM then 2 else v
  }

  /** A well-formed tree, and a complete table of it. */
  ghost predicate Complete(k: Kconf, w: State) {
    WellFormed(k) && Solves(k, w)
  }

  lemma CompleteHas(k: Kconf, w: State)
    requires Complete(k, w)
    ensures HasModules(k, w)
    ensures forall z | InTree(k, z) :: Has(k, w, z)
    ensures forall s | 0 <= s < |k.syms| :: HasSymInputs(k, w, s)
    ensures forall c | 0 <= c < |k.choices| :: HasChoiceInputs(k, w, c)
  {
    assert k.modules.Sym? ==> SymFull(w.syms[k.modules.s]);
    forall z | InTree(k, z) ensures Has(k, w, z) {
      match z
      case ISym(s) => assert SymFull(w.syms[s]);
      case IChoice(c) => assert ChoiceFull(w.choices[c]);
    }
    forall s | 0 <= s < |k.syms| ensures HasSymInputs(k, w, s) { assert SymWellFormed(k, k.syms[s]); }
  }

  // ---- Visibility ----

  /** v is the largest of the prompt conditions; n if there are none. */
  ghost predicate Largest(k: Kconf, w: State, prompts: seq<Expr>, v: Tri) {
    && (forall i | 0 <= i < |prompts| :: Val(k, w, prompts[i]) <= v)
    && (v == 0 || exists i | 0 <= i < |prompts| :: Val(k, w, prompts[i]) == v)
  }

  lemma {:induction false} PromptVisIs(k: Kconf, w: State, prompts: seq<Expr>, n: nat)
    requires n <= |prompts| && PromptVis(k, w, prompts, n).Some?
    ensures Largest(k, w, prompts[..n], PromptVis(k, w, prompts, n).value)
  {
    if n > 0 {
      PromptVisIs(k, w, prompts, n - 1);
      assert prompts[..n] == prompts[..n - 1] + [prompts[n - 1]];
      assert prompts[..n][n - 1] == prompts[n - 1];
      var v := PromptVis(k, w, prompts, n - 1).value;
      if v > 0 && Val(k, w, prompts[n - 1]) <= v {
        var i :| 0 <= i < n - 1 && Val(k, w, prompts[..n - 1][i]) == v;
        assert prompts[..n][i] == prompts[..n - 1][i];
      }
    }
  }

  /** The visibility of a choice is the largest of its prompt conditions. */
  lemma ChoiceVisibility(k: Kconf, w: State, c: nat) returns (v: Tri)
    requires Complete(k, w) && c < |k.choices|
    ensures Largest(k, w, k.choices[c].prompts, v)
    ensures w.choices[c].vis == Some(Promoted(v, NoM(k, w, k.choices[c].kind)))
  {
    var prompts := k.choices[c].prompts;
    assert ChoiceFull(w.choices[c]) && ChoiceJustified(k, w, c);
    CompleteHas(k, w);
    PromptVisIs(k, w, prompts, |prompts|);
    assert prompts[..|prompts|] == prompts;
    v := PromptVis(k, w, prompts, |prompts|).value;
  }

  /**
    The visibility of a symbol is the largest of its prompt conditions, except in
    a choice: a bool symbol of a tristate choice is hidden unless the choice is in
    y mode, and a tristate symbol visible as m is hidden if it is.
   */
  lemma SymbolVisibility(k: Kconf, w: State, s: nat) returns (v: Tri)
    requires Complete(k, w) && s < |k.syms|
    ensures Largest(k, w, k.syms[s].prompts, v)
    ensures var d := k.syms[s];
      var inY := d.choice.Some? && ModeOf(k, w, d.choice.value) == Some(2);
      var noM := d.kind != Tristate || inY || TriOf(k, w, k.modules) == Some(0);
      w.syms[s].vis ==
      if d.choice.Some? && k.choices[d.choice.value].kind == Tristate && d.kind != Tristate && !inY then Some(0)
      else if d.choice.Some? && d.kind == Tristate && v == 1 && inY then Some(0)
      else Some(Promoted(v, noM))
  {
    var d := k.syms[s];
    assert SymFull(w.syms[s]) && SymJustified(k, w, s) && SymWellFormed(k, d);
    CompleteHas(k, w);
    PromptVisIs(k, w, d.prompts, |d.prompts|);
    assert d.prompts[..|d.prompts|] == d.prompts;
    v := PromptVis(k, w, d.prompts, |d.prompts|).value;
  }

  // ---- Modes and selections of choices ----

  /** The mode the user asked for, at least m unless the choice is optional, as far as visible. */
  lemma ModeMeaning(k: Kconf, w: State, c: nat)
    requires Complete(k, w) && c < |k.choices|
    ensures ModeOf(k, w, c).Some?
    ensures var d, x, mode := k.choices[c], w.choices[c], ModeOf(k, w, c).value;
      && (x.vis == Some(0) ==> mode == 0)
      && (d.optional && (x.user == None || x.user == Some(0)) ==> mode == 0)
      && (x.vis != Some(0) && !(d.optional && (x.user == None || x.user == Some(0))) ==>
            mode == if NoM(k, w, d.kind) && BoolLike(d.kind) then 2 else if x.user == Some(2) then x.vis.value else 1)
  {
    assert ChoiceFull(w.choices[c]) && ChoiceJustified(k, w, c);
    CompleteHas(k, w);
    var v := ChoiceVisibility(k, w, c);
  }

  predicate Shown(w: State, s: nat) {
    VisOf(w, s) != Some(0)
  }

  /** Default i of a choice applies: its condition is not n and its symbol is visible. */
  ghost predicate Applies(k: Kconf, w: State, ds: seq<Guarded<nat>>, i: nat) {
    i < |ds| && Val(k, w, ds[i].cond) != 0 && Shown(w, ds[i].item)
  }

  lemma {:induction false} DefaultSelFirst(k: Kconf, w: State, ds: seq<Guarded<nat>>, i: nat, f: nat)
    requires i <= f <= |ds| && DefaultSel(k, w, ds, i).Some?
    requires forall j | i <= j < f :: !Applies(k, w, ds, j)
    requires f < |ds| ==> Applies(k, w, ds, f)
    ensures DefaultSel(k, w, ds, i) == Some(if f < |ds| then Some(ds[f].item) else None)
    decreases f - i
  {
    if i < f {
      assert !Applies(k, w, ds, i);
      DefaultSelFirst(k, w, ds, i + 1, f);
    }
  }

  lemma {:induction false} FirstVisibleFirst(w: State, ss: seq<nat>, i: nat, f: nat)
    requires i <= f <= |ss| && FirstVisible(w, ss, i).Some?
    requires forall j | i <= j < f :: !Shown(w, ss[j])
    requires f < |ss| ==> Shown(w, ss[f])
    ensures FirstVisible(w, ss, i) == Some(if f < |ss| then Some(ss[f]) else None)
    decreases f - i
  {
    if i < f {
      assert !Shown(w, ss[i]);
      FirstVisibleFirst(w, ss, i + 1, f);
    }
  }

  ghost predicate InYMode(k: Kconf, w: State, c: nat) {
    Complete(k, w) && PicksMembers(k, w) && c < |k.choices| && ModeOf(k, w, c) == Some(2)
  }

  lemma YSelection(k: Kconf, w: State, c: nat)
    requires InYMode(k, w, c)
    ensures ChoiceSel(k, w, c) == w.choices[c].sel && w.choices[c].sel.Some?
    ensures forall s | s in k.choices[c].syms :: VisOf(w, s).Some?
  {
    assert ChoiceFull(w.choices[c]) && ChoiceJustified(k, w, c) && ChoiceWellFormed(k, c);
    forall s | s in k.choices[c].syms ensures VisOf(w, s).Some? {
      MemberInTree(k, c, s);
      assert SymFull(w.syms[s]);
    }
  }

  /** In y mode, the symbol the user picked is selected if it is visible. */
  lemma PickSelected(k: Kconf, w: State, c: nat)
    requires InYMode(k, w, c) && w.choices[c].picked.Some? && Shown(w, w.choices[c].picked.value)
    ensures w.choices[c].sel == Some(w.choices[c].picked)
  {
    YSelection(k, w, c);
  }

  /** Without a visible pick, the first default that applies is selected. */
  lemma DefaultSelected(k: Kconf, w: State, c: nat, i: nat)
    requires InYMode(k, w, c) && (w.choices[c].picked.Some? ==> !Shown(w, w.choices[c].picked.value))
    requires Applies(k, w, k.choices[c].defaults, i) && forall j | 0 <= j < i :: !Applies(k, w, k.choices[c].defaults, j)
    ensures w.choices[c].sel == Some(Some(k.choices[c].defaults[i].item))
  {
    YSelection(k, w, c);
    FromDefaults(k, w, c);
    DefaultSelFirst(k, w, k.choices[c].defaults, 0, i);
  }

  /** Without such a default, the first visible symbol is selected, if any. */
  lemma FirstShownSelected(k: Kconf, w: State, c: nat, i: nat)
    requires InYMode(k, w, c) && (w.choices[c].picked.Some? ==> !Shown(w, w.choices[c].picked.value))
    requires forall j: nat :: !Applies(k, w, k.choices[c].defaults, j)
    requires i <= |k.choices[c].syms| && forall j | 0 <= j < i :: !Shown(w, k.choices[c].syms[j])
    requires i < |k.choices[c].syms| ==> Shown(w, k.choices[c].syms[i])
    ensures w.choices[c].sel == Some(if i < |k.choices[c].syms| then Some(k.choices[c].syms[i]) else None)
  {
    YSelection(k, w, c);
    FromDefaults(k, w, c);
    DefaultSelFirst(k, w, k.choices[c].defaults, 0, |k.choices[c].defaults|);
    FirstVisibleFirst(w, k.choices[c].syms, 0, i);
  }

  lemma FromDefaults(k: Kconf, w: State, c: nat)
    requires InYMode(k, w, c) && w.choices[c].sel.Some? && ChoiceSel(k, w, c) == w.choices[c].sel
    requires w.choices[c].picked.Some? ==> !Shown(w, w.choices[c].picked.value)
    ensures SelFromDefaults(k, w, c) == w.choices[c].sel && DefaultSel(k, w, k.choices[c].defaults, 0).Some?
  {
  }

  /** Outside y mode nothing is selected. */
  lemma NothingSelected(k: Kconf, w: State, c: nat)
    requires Complete(k, w) && c < |k.choices| && ModeOf(k, w, c) != Some(2)
    ensures w.choices[c].sel == Some(None)
  {
    assert ChoiceFull(w.choices[c]) && ChoiceJustified(k, w, c);
  }

  /** A symbol of a choice: y if it is the visible selection in y mode, m if the user set it in m mode, else n. */
  lemma MemberMeaning(k: Kconf, w: State, s: nat)
    requires Complete(k, w) && s < |k.syms| && BoolLike(k.syms[s].kind) && k.syms[s].choice.Some?
    ensures var x := w.syms[s];
      && (x.tri == Some(2) <==> x.vis == Some(2) && w.choices[k.syms[s].choice.value].sel == Some(Some(s)))
      && (x.tri == Some(1) <==> x.vis == Some(1) && (x.user == Some(Num(1)) || x.user == Some(Num(2))))
      && x.write == (x.vis != Some(0))
  {
    assert SymFull(w.syms[s]) && SymJustified(k, w, s) && SymWellFormed(k, k.syms[s]);
    assert ChoiceFull(w.choices[k.syms[s].choice.value]);
  }

  // ---- Values of bool and tristate symbols ----

  /** A bool or tristate symbol outside choices, in a complete table. */
  ghost predicate PlainBool(k: Kconf, w: State, s: nat) {
    Complete(k, w) && s < |k.syms| && BoolLike(k.syms[s].kind) && k.syms[s].choice.None?
  }

  ghost predicate UsesUser(w: State, s: nat)
    requires s < |w.syms|
  {
    w.syms[s].vis != Some(0) && w.syms[s].user.Some?
  }

  lemma PlainInputs(k: Kconf, w: State, s: nat)
    requires PlainBool(k, w, s)
    ensures var d := k.syms[s];
      && ExprVal(k, w, d.revDep).Some? && ExprVal(k, w, d.weakRevDep).Some? && ExprVal(k, w, d.directDep).Some?
      && DefaultTri(k, w, d.defaults).Some? && HasModules(k, w) && FirstActive(k, w, d.defaults, 0).Some?
      && SymFull(w.syms[s]) && SymTri(k, w, s) == Some((w.syms[s].tri.value, w.syms[s].write))
      && (d.kind == Tristate && TriOf(k, w, k.modules) != Some(0) <==> NotTristate(k, w, s) == Some(false))
  {
    CompleteHas(k, w);
    var d := k.syms[s];
    assert SymFull(w.syms[s]) && SymJustified(k, w, s);
    ExprHas(k, w, d.revDep);
    ExprHas(k, w, d.weakRevDep);
    ExprHas(k, w, d.directDep);
    DefaultTriHas(k, w, s);
  }

  /** m becomes y for bool symbols, without modules, and when implied to y. */
  ghost predicate NeverM(k: Kconf, w: State, s: nat)
    requires s < |k.syms|
  {
    NoM(k, w, k.syms[s].kind) || Val(k, w, k.syms[s].weakRevDep) == 2
  }

  /** A visible symbol has the value the user gave it, limited by its visibility from above and by selects from below. */
  lemma UserValue(k: Kconf, w: State, s: nat, u: Tri)
    requires PlainBool(k, w, s) && w.syms[s].vis != Some(0) && w.syms[s].user == Some(Num(u))
    ensures w.syms[s].tri ==
      Some(Promoted(Max(Val(k, w, k.syms[s].revDep), Min(u, w.syms[s].vis.value)), NeverM(k, w, s)))
    ensures NoModules(k) ==> w.syms[s].tri == Some(if u != 0 || Val(k, w, k.syms[s].revDep) != 0 then 2 else 0)
  {
    PlainInputs(k, w, s);
    assert SymJustified(k, w, s);
    if NoModules(k) { NoMSymVis(k, w, s); }
  }

  /** What default i gives, or n if there is none. */
  function DefaultLevel(k: Kconf, w: State, ds: seq<Guarded<Expr>>, i: nat): Tri {
    if i < |ds| then Min(Val(k, w, ds[i].item), Val(k, w, ds[i].cond)) else 0
  }

  /** An imply counts where the direct dependency is not n. */
  function Implied(k: Kconf, w: State, s: nat): Tri
    requires s < |k.syms|
  {
    if Val(k, w, k.syms[s].directDep) != 0 then Val(k, w, k.syms[s].weakRevDep) else 0
  }

  lemma DefaultTriIs(k: Kconf, w: State, s: nat, i: nat)
    requires PlainBool(k, w, s) && FirstOn(k, w, k.syms[s].defaults, i)
    ensures DefaultTri(k, w, k.syms[s].defaults) == Some(DefaultLevel(k, w, k.syms[s].defaults, i))
  {
    PlainInputs(k, w, s);
    FirstActiveIs(k, w, k.syms[s].defaults, 0, i);
  }

  /** Hidden or without a user value, a symbol has the largest of its first active default, its implies and its selects. */
  lemma DefaultValue(k: Kconf, w: State, s: nat, i: nat)
    requires PlainBool(k, w, s) && !UsesUser(w, s) && FirstOn(k, w, k.syms[s].defaults, i)
    ensures var base := Max(Val(k, w, k.syms[s].revDep), Max(Implied(k, w, s), DefaultLevel(k, w, k.syms[s].defaults, i)));
      && w.syms[s].tri == Some(Promoted(base, NeverM(k, w, s)))
      && (NoModules(k) ==> w.syms[s].tri == Some(if base != 0 then 2 else 0))
  {
    PlainInputs(k, w, s);
    DefaultTriIs(k, w, s, i);
  }

  /** A symbol is written to the file if it is visible, or if a default, an imply or a select gives it a value. */
  lemma TriWritten(k: Kconf, w: State, s: nat, i: nat)
    requires PlainBool(k, w, s) && FirstOn(k, w, k.syms[s].defaults, i)
    ensures w.syms[s].write <==>
      || w.syms[s].vis != Some(0) || Val(k, w, k.syms[s].revDep) != 0
      || Implied(k, w, s) != 0 || DefaultLevel(k, w, k.syms[s].defaults, i) != 0
  {
    PlainInputs(k, w, s);
    DefaultTriIs(k, w, s, i);
  }

  /** Every bool or tristate symbol that is not n is written. */
  lemma NotNWritten(k: Kconf, w: State, s: nat)
    requires Complete(k, w) && s < |k.syms| && BoolLike(k.syms[s].kind) && w.syms[s].tri != Some(0)
    ensures w.syms[s].write
  {
    assert SymFull(w.syms[s]) && SymJustified(k, w, s) && SymWellFormed(k, k.syms[s]);
    CompleteHas(k, w);
  }

  // ---- Strings and numbers ----

  ghost predicate HasText(k: Kconf, w: State, s: nat) {
    Complete(k, w) && s < |k.syms| && (k.syms[s].kind == Str || k.syms[s].kind == Int || k.syms[s].kind == Hex)
  }

  /** The text of default i; empty if there is none. */
  function DefaultText(k: Kconf, w: State, ds: seq<Guarded<Expr>>, i: nat): string {
    if i < |ds| && ds[i].item.Use? && StrOf(k, w, ds[i].item.o).Some? then StrOf(k, w, ds[i].item.o).value else ""
  }

  lemma TextInputs(k: Kconf, w: State, s: nat, i: nat, j: nat)
    requires HasText(k, w, s) && FirstOn(k, w, k.syms[s].defaults, i) && FirstOn(k, w, k.syms[s].ranges, j)
    ensures SymFull(w.syms[s]) && SymStr(k, w, s) == Some((w.syms[s].str.value, w.syms[s].write))
    ensures DefaultStr(k, w, k.syms[s].defaults) ==
            Some(if i < |k.syms[s].defaults| then Some(DefaultText(k, w, k.syms[s].defaults, i)) else None)
    ensures k.syms[s].kind != Str ==> ActiveRange(k, w, s) == Some(RangeAt(k, w, s, j))
  {
    CompleteHas(k, w);
    var d := k.syms[s];
    assert SymFull(w.syms[s]) && SymJustified(k, w, s) && SymWellFormed(k, d);
    DefaultStrHas(k, w, s);
    FirstActiveHas(k, w, d.defaults, 0);
    FirstActiveHas(k, w, d.ranges, 0);
    FirstActiveIs(k, w, d.defaults, 0, i);
    FirstActiveIs(k, w, d.ranges, 0, j);
    if j < |d.ranges| {
      forall z | NamesSym(d.ranges[j].item.0, z) || NamesSym(d.ranges[j].item.1, z) ensures Has(k, w, z) {
        assert BoundsMention(d.ranges, z);
      }
      BoundHas(k, w, d.ranges[j].item.0);
      BoundHas(k, w, d.ranges[j].item.1);
    }
  }

  /** A number, or 0 where the text does not parse as one of the type. */
  function NumberOf(k: Kconf, kind: Kind, text: Option<string>): int {
    if text.Some? && k.numbers.parse(text.value, if kind == Hex then 16 else if kind == Int then 10 else 0).Some?
    then k.numbers.parse(text.value, if kind == Hex then 16 else if kind == Int then 10 else 0).value
    else 0
  }

  /** The bounds of range j, if there is one. */
  function RangeAt(k: Kconf, w: State, s: nat, j: nat): Option<(int, int)>
    requires s < |k.syms|
  {
    var d := k.syms[s];
    if j < |d.ranges| then
      Some((NumberOf(k, d.kind, StrOf(k, w, d.ranges[j].item.0)), NumberOf(k, d.kind, StrOf(k, w, d.ranges[j].item.1))))
    else None
  }

  /** A visible string symbol has the text the user gave it. */
  lemma UserText(k: Kconf, w: State, s: nat, t: string, i: nat, j: nat)
    requires HasText(k, w, s) && FirstOn(k, w, k.syms[s].defaults, i) && FirstOn(k, w, k.syms[s].ranges, j)
    requires k.syms[s].kind == Str && w.syms[s].vis != Some(0) && w.syms[s].user == Some(Txt(t))
    ensures w.syms[s].str == Some(t)
  {
    TextInputs(k, w, s, i, j);
  }

  /** Otherwise it has the text of its first active default. */
  lemma DefaultTextValue(k: Kconf, w: State, s: nat, i: nat, j: nat)
    requires HasText(k, w, s) && FirstOn(k, w, k.syms[s].defaults, i) && FirstOn(k, w, k.syms[s].ranges, j)
    requires k.syms[s].kind == Str && !UsesUser(w, s)
    ensures w.syms[s].str == Some(DefaultText(k, w, k.syms[s].defaults, i))
  {
    TextInputs(k, w, s, i, j);
  }

  predicate Within(n: int, range: Option<(int, int)>) {
    range.Some? ==> range.value.0 <= n && n <= range.value.1
  }

  /** The user gave a number that the first active range admits. */
  ghost predicate UsesNumber(k: Kconf, w: State, s: nat, j: nat)
    requires s < |k.syms| && s < |w.syms|
  {
    && w.syms[s].vis != Some(0) && w.syms[s].user.Some? && w.syms[s].user.value.Txt? && w.syms[s].user.value.s != ""
    && Within(NumberOf(k, k.syms[s].kind, Some(w.syms[s].user.value.s)), RangeAt(k, w, s, j))
  }

  /** Such a number is kept as the user wrote it. */
  lemma UserNumber(k: Kconf, w: State, s: nat, i: nat, j: nat)
    requires HasText(k, w, s) && FirstOn(k, w, k.syms[s].defaults, i) && FirstOn(k, w, k.syms[s].ranges, j)
    requires k.syms[s].kind != Str && UsesNumber(k, w, s, j)
    ensures w.syms[s].str == Some(w.syms[s].user.value.s)
  {
    TextInputs(k, w, s, i, j);
  }

  /** Otherwise the first active default counts, or 0, pulled to the nearer bound of the first active range. */
  lemma DefaultNumber(k: Kconf, w: State, s: nat, i: nat, j: nat)
    requires HasText(k, w, s) && FirstOn(k, w, k.syms[s].defaults, i) && FirstOn(k, w, k.syms[s].ranges, j)
    requires k.syms[s].kind != Str && !UsesNumber(k, w, s, j)
    ensures var d := k.syms[s];
      var text, range := DefaultText(k, w, d.defaults, i), RangeAt(k, w, s, j);
      var n := NumberOf(k, d.kind, if i < |d.defaults| then Some(text) else None);
      && (Within(n, range) ==> w.syms[s].str == Some(text))
      && (range.Some? && n < range.value.0 ==> w.syms[s].str == Some(k.numbers.show(range.value.0, d.kind)))
      && (range.Some? && range.value.0 <= n && n > range.value.1 ==>
            w.syms[s].str == Some(k.numbers.show(range.value.1, d.kind)))
  {
    TextInputs(k, w, s, i, j);
  }

  /** A string or number is written if it is visible or has an active default, unless it is never written. */
  lemma TextWritten(k: Kconf, w: State, s: nat, i: nat, j: nat)
    requires HasText(k, w, s) && FirstOn(k, w, k.syms[s].defaults, i) && FirstOn(k, w, k.syms[s].ranges, j)
    ensures w.syms[s].write <==> !k.syms[s].unwritten && (w.syms[s].vis != Some(0) || i < |k.syms[s].defaults|)
  {
    TextInputs(k, w, s, i, j);
  }

  /** Symbols that are not bool or tristate are n, and a symbol without a type has its name as text. */
  lemma OtherValues(k: Kconf, w: State, s: nat)
    requires Complete(k, w) && s < |k.syms| && !BoolLike(k.syms[s].kind)
    ensures w.syms[s].tri == Some(0) && w.syms[s].asn == Some([])
    ensures k.syms[s].kind == Unknown ==> w.syms[s].str == Some(k.syms[s].name)
  {
    assert SymFull(w.syms[s]) && SymJustified(k, w, s);
  }

  /** The text of a bool or tristate symbol is the name of its value. */
  lemma BoolText(k: Kconf, w: State, s: nat)
    requires Complete(k, w) && s < |k.syms| && BoolLike(k.syms[s].kind)
    ensures w.syms[s].tri.Some?
    ensures w.syms[s].str == Some(if w.syms[s].tri == Some(0) then "n" else if w.syms[s].tri == Some(1) then "m" else "y")
  {
    assert SymFull(w.syms[s]) && SymJustified(k, w, s);
  }
}
