/**
  Saving and loading.  Both writers, the full one and the minimal one, give back
  every value, visibility, mode and selection when the file is loaded into a
  fresh instance; for both this holds exactly when no optional choice is in y
  mode without a selection, because such a mode leaves no line in either file.
 */
module KconfigRoundTrip {
  import opened Common
  import opened KconfigModel
  import opened KconfigReads
  import opened KconfigValues
  import opened KconfigFresh
  import opened KconfigCaching
  import opened KconfigSettings
  import opened KconfigChoices
  import opened KconfigRestore
  import opened KconfigLoad
  import opened KconfigSave
  import opened KconfigRun

  // ---- From a file to the table after loading it ----

  lemma SettingsLoadedFrom(k: Kconf, rank: Item -> nat, top: nat, w: State, saved: set<nat>, g: Settings, w': State)
    requires Table(k, rank, top, w) && OnlySaved(k, w, saved, g)
    requires forall s | s in saved :: s < |k.syms| && Arrived(k, w, g, s)
    requires Fits(k, w') && SameUser(StateOf(g), w')
    ensures LoadedFrom(k, w, w', saved)
  {
    forall c | 0 <= c < |k.choices| && exists s :: SavedY(k, w, saved, c, s)
      ensures w'.choices[c].picked.Some? && SavedY(k, w, saved, c, w'.choices[c].picked.value)
      ensures w'.choices[c].user == if BoolLike(k.choices[c].kind) then Some(2) else None
    {
      var s :| SavedY(k, w, saved, c, s);
      MemberInTree(k, c, s);
      assert Arrived(k, w, g, s);
    }
    forall s | 0 <= s < |k.syms| && k.syms[s].choice.None? && k.syms[s].kind != Unknown
      ensures w'.syms[s].user == if s in saved then SavedValue(k, w, s) else None
    {
      if s in saved { assert Arrived(k, w, g, s); }
    }
  }

  lemma LoadedPicks(k: Kconf, w: State, saved: set<nat>, g: Settings)
    requires OnlySaved(k, w, saved, g)
    ensures PicksOk(k, g)
  {
  }

  /** w' holds all values after loading the lines into a fresh instance. */
  ghost predicate Reloaded(k: Kconf, lines: seq<string>, w': State) {
    ChoicesInTree(k) && HoldsValues(k, LoadAll(k, NoSettings(k), lines, true), w')
  }

  lemma ReloadedTable(k: Kconf, rank: Item -> nat, top: nat, w: State, lines: seq<string>, saved: set<nat>, w': State)
    requires File(k, rank, top, w, lines, saved) && Reloaded(k, lines, w')
    ensures LoadedFrom(k, w, w', saved) && Table(k, rank, top, w')
  {
    FileArrives(k, rank, top, w, lines, saved);
    var g := LoadAll(k, NoSettings(k), lines, true);
    SettingsLoadedFrom(k, rank, top, w, saved, g, w');
    LoadedPicks(k, w, saved, g);
  }

  /** No optional choice is in y mode with nothing selected. */
  ghost predicate NoEmptyChoice(k: Kconf, w: State) {
    forall c | 0 <= c < |k.choices| && c < |w.choices| && k.choices[c].optional && ModeOf(k, w, c) == Some(2) ::
      w.choices[c].sel != Some(None)
  }

  /** If the values all come back, no mode was lost. */
  lemma EmptyChoiceLost(k: Kconf, rank: Item -> nat, top: nat, w: State, w': State, saved: set<nat>)
    requires Table(k, rank, top, w) && Table(k, rank, top, w') && LoadedFrom(k, w, w', saved)
    requires AllSame(k, w, w')
    ensures NoEmptyChoice(k, w)
  {
    forall c | 0 <= c < |k.choices| && k.choices[c].optional && ModeOf(k, w, c) == Some(2)
      ensures w.choices[c].sel != Some(None)
    {
      assert ChoiceSame(k, w, w', c);
      TableChoice(k, rank, top, w, c);
      assert exists s :: SavedY(k, w, saved, c, s);
      var s :| SavedY(k, w, saved, c, s);
      AtMostOneY(k, w, c, s, s);
    }
  }

  /** In a y-mode choice with a selection, the selected symbol is y and gets a line. */
  lemma SelectedIsWritten(k: Kconf, rank: Item -> nat, top: nat, w: State, c: nat, x: nat)
    requires Table(k, rank, top, w) && c < |k.choices| && ModeOf(k, w, c) == Some(2) && w.choices[c].sel == Some(Some(x))
    ensures x in k.choices[c].syms && x < |k.syms| && BoolLike(k.syms[x].kind) && k.syms[x].choice == Some(c)
    ensures ValueIn(w, x) == 2 && SymbolLine(k, w, x).Some?
  {
    TableChoice(k, rank, top, w, c);
    SelectionVisible(k, w, c);
    YModeVis(k, w, c, x);
    MemberInTree(k, c, x);
    assert BoolMembers(k, c) && SymFull(w.syms[x]);
    NoMValue(k, rank, top, w, x);
  }

  // ---- The full file ----

  /** Symbols that are never written carry no user value. */
  ghost predicate UnwrittenUnset(k: Kconf, w: State) {
    forall s | 0 <= s < |k.syms| && s < |w.syms| && k.syms[s].unwritten && !BoolLike(k.syms[s].kind) :: w.syms[s].user == None
  }

  ghost function WrittenSyms(k: Kconf, w: State): set<nat> {
    set s | 0 <= s < |k.syms| && SymbolLine(k, w, s).Some?
  }

  lemma WithoutSame(k: Kconf, w: State, s: nat)
    requires s < |w.syms| && w.syms[s].user == None
    ensures Without(w, s) == w
  {
  }

  /** A visible symbol without a line is one that is never written. */
  lemma VisibleIsWritten(k: Kconf, rank: Item -> nat, top: nat, w: State, s: nat)
    requires Table(k, rank, top, w) && s < |k.syms| && k.syms[s].choice.None? && k.syms[s].kind != Unknown
    requires w.syms[s].vis != Some(0) && SymbolLine(k, w, s).None?
    ensures !BoolLike(k.syms[s].kind) && k.syms[s].unwritten
  {
    assert SymJustified(k, w, s) && SymFull(w.syms[s]);
  }

  lemma FullEnough(k: Kconf, rank: Item -> nat, top: nat, w: State)
    requires Table(k, rank, top, w) && UnwrittenUnset(k, w) && NoEmptyChoice(k, w)
    ensures Enough(k, w, WrittenSyms(k, w))
  {
    var saved := WrittenSyms(k, w);
    forall s | 0 <= s < |k.syms| ensures SymEnough(k, w, saved, s) {
      assert SymJustified(k, w, s) && SymFull(w.syms[s]);
      if k.syms[s].choice.None? && w.syms[s].vis != Some(0) && s !in saved && k.syms[s].kind != Unknown {
        VisibleIsWritten(k, rank, top, w, s);
        WithoutSame(k, w, s);
      }
    }
    forall c | 0 <= c < |k.choices| ensures ChoiceEnough(k, w, saved, c) {
      FullChoiceEnough(k, rank, top, w, c);
    }
  }

  lemma FullChoiceEnough(k: Kconf, rank: Item -> nat, top: nat, w: State, c: nat)
    requires Table(k, rank, top, w) && NoEmptyChoice(k, w) && c < |k.choices|
    ensures ChoiceEnough(k, w, WrittenSyms(k, w), c)
  {
    TableChoice(k, rank, top, w, c);
    if ModeOf(k, w, c) == Some(2) && w.choices[c].sel.value.Some? {
      var x := w.choices[c].sel.value.value;
      SelectedIsWritten(k, rank, top, w, c, x);
      assert SavedY(k, w, WrittenSyms(k, w), c, x);
    }
  }

  /** Full file round trip, with the exact condition under which it holds. */
  lemma FullRoundTrip(k: Kconf, rank: Item -> nat, top: nat, w: State, lines: seq<string>, w': State)
    requires File(k, rank, top, w, lines, WrittenSyms(k, w)) && UnwrittenUnset(k, w) && Reloaded(k, lines, w')
    ensures AllSame(k, w, w') <==> NoEmptyChoice(k, w)
  {
    var saved := WrittenSyms(k, w);
    ReloadedTable(k, rank, top, w, lines, saved, w');
    if NoEmptyChoice(k, w) {
      FullEnough(k, rank, top, w);
      EnoughRestores(k, rank, top, w, w', saved);
    }
    if AllSame(k, w, w') {
      EmptyChoiceLost(k, rank, top, w, w', saved);
    }
  }

  // ---- The minimal file ----

  /** The value a symbol gets from its defaults, as the minimal writer works it out. */
  function DefaultName(k: Kconf, w: State, s: nat): Option<string>
    requires s < |k.syms|
  {
    var d := k.syms[s];
    if BoolLike(d.kind) then
      if d.choice.Some? then Some("n")
      else
        var def :- DefaultTri(k, w, d.defaults);
        var rev :- ExprVal(k, w, d.revDep);
        var weak :- ExprVal(k, w, d.weakRevDep);
        var val: Tri := Max(rev, Max(weak, def));
        if val != 1 then Some(TriName(val))
        else
          var isBool :- NotTristate(k, w, s);
          Some(if isBool then "y" else "m")
    else if d.kind != Unknown then
      var def :- DefaultStr(k, w, d.defaults);
      Some(if def.Some? then def.value else "")
    else Some("")
  }

  /** A symbol that would be selected by default in a bool-like, non-optional choice. */
  function SelectedByDefault(k: Kconf, w: State, s: nat): Option<bool>
    requires s < |k.syms|
  {
    if k.syms[s].choice.None? then Some(false)
    else
      var c := k.syms[s].choice.value;
      if c >= |k.choices| || k.choices[c].optional then Some(false)
      else
        var sel :- SelFromDefaults(k, w, c);
        if sel != Some(s) || k.syms[s].kind != Bool then Some(false)
        else
          var t :- TriOf(k, w, Sym(s));
          Some(t == 2)
  }

  /** A plain symbol that the user cannot change: it is selected to at least its visibility. */
  function Fixed(k: Kconf, w: State, s: nat): Option<bool>
    requires s < |k.syms|
  {
    if k.syms[s].choice.Some? then Some(false)
    else
      var vis :- VisOf(w, s);
      var rev :- ExprVal(k, w, k.syms[s].revDep);
      Some(vis <= rev)
  }

  /** Whether the minimal writer keeps a symbol. */
  function MinKept(k: Kconf, w: State, s: nat): Option<bool>
    requires s < |k.syms|
  {
    var fixed :- Fixed(k, w, s);
    if fixed then Some(false)
    else
      var val :- StrOf(k, w, Sym(s));
      var def :- DefaultName(k, w, s);
      if val == def then Some(false)
      else
        var byDefault :- SelectedByDefault(k, w, s);
        Some(!byDefault)
  }

  ghost function MinSyms(k: Kconf, w: State): set<nat> {
    set s | 0 <= s < |k.syms| && SymbolLine(k, w, s).Some? && MinKept(k, w, s) == Some(true)
  }

  /** What the finalizing pass and the sanity checks see to. */
  ghost predicate MinReady(k: Kconf, w: State) {
    && Fits(k, w) && UnwrittenUnset(k, w)
    && (forall s | 0 <= s < |k.syms| && w.syms[s].vis != Some(0) :: ExprVal(k, w, k.syms[s].directDep) != Some(0))
    && (forall s | 0 <= s < |k.syms| && !BoolLike(k.syms[s].kind) && k.syms[s].kind != Unknown :: k.syms[s].revDep == Use(Known(0)))
  }

  lemma TableHas(k: Kconf, rank: Item -> nat, top: nat, w: State, s: nat)
    requires Table(k, rank, top, w) && s < |k.syms|
    ensures HasSymInputs(k, w, s)
  {
    forall z | InTree(k, z) ensures Has(k, w, z) {
      match z
      case ISym(t) => assert SymFull(w.syms[t]);
      case IChoice(c) => assert ChoiceFull(w.choices[c]);
    }
    assert SymWellFormed(k, k.syms[s]);
  }

  lemma WithoutHas(k: Kconf, w: State, s: nat)
    requires s < |k.syms| && s < |w.syms| && HasSymInputs(k, w, s)
    ensures HasSymInputs(k, Without(w, s), s)
  {
    forall z | SymMentions(k.syms[s], z) ensures Has(k, Without(w, s), z) {
      assert Has(k, w, z);
    }
  }

  /** Dropping the user value of a symbol changes nothing that its own rules read besides that value. */
  lemma WithoutReads(k: Kconf, w: State, s: nat)
    requires s < |k.syms| && s < |w.syms|
    ensures KeepsSym(k, w, Without(w, s), k.syms[s]) && KeepsSym(k, Without(w, s), w, k.syms[s])
  {
    forall z | SymMentions(k.syms[s], z) ensures KeepsItem(k, w, Without(w, s), z) && KeepsItem(k, Without(w, s), w, z) {
    }
  }

  /** Without its user value, a visible plain symbol has its default name as value. */
  lemma DefaultNameIsValue(k: Kconf, rank: Item -> nat, top: nat, w: State, s: nat)
    requires Table(k, rank, top, w) && MinReady(k, w) && s < |k.syms| && w.syms[s].vis != Some(0)
    requires BoolLike(k.syms[s].kind) && k.syms[s].choice.None?
    ensures var r := SymTri(k, Without(w, s), s);
            r.Some? && DefaultName(k, w, s) == Some(TriName(r.value.0))
  {
    var w0, d := Without(w, s), k.syms[s];
    TableHas(k, rank, top, w, s);
    WithoutHas(k, w, s);
    assert SymFull(w.syms[s]);
    SymTriHas(k, w0, s);
    WithoutReads(k, w, s);
    KeepsSymExprs(k, w0, w, d);
    DefaultTriHas(k, w0, s);
    DefaultTriKept(k, w0, w, d);
    ExprHas(k, w0, d.revDep);
    ExprKept(k, w0, w, d.revDep);
    ExprHas(k, w0, d.weakRevDep);
    ExprKept(k, w0, w, d.weakRevDep);
    ExprHas(k, w0, d.directDep);
    ExprKept(k, w0, w, d.directDep);
  }

  /** A symbol selected to y is y whatever the user says. */
  lemma FixedIsValue(k: Kconf, rank: Item -> nat, top: nat, w: State, s: nat)
    requires Table(k, rank, top, w) && s < |k.syms| && w.syms[s].vis != Some(0)
    requires BoolLike(k.syms[s].kind) && k.syms[s].choice.None? && Fixed(k, w, s) == Some(true)
    ensures var r := SymTri(k, Without(w, s), s);
            r.Some? && r.value.0 == ValueIn(w, s)
  {
    var w0, d := Without(w, s), k.syms[s];
    TableHas(k, rank, top, w, s);
    WithoutHas(k, w, s);
    assert SymFull(w.syms[s]) && SymJustified(k, w, s);
    NoMSymVis(k, w, s);
    SymTriHas(k, w0, s);
    WithoutReads(k, w, s);
    KeepsSymExprs(k, w, w0, d);
    ExprKept(k, w, w0, d.revDep);
    PlainTriBounds(k, w, s, w.syms[s].vis.value);
    PlainTriBounds(k, w0, s, w.syms[s].vis.value);
  }

  /** A string or number equal to its unclamped default has that value without its user value too. */
  lemma DefaultStrIsValue(k: Kconf, rank: Item -> nat, top: nat, w: State, s: nat)
    requires Table(k, rank, top, w) && s < |k.syms|
    requires !BoolLike(k.syms[s].kind) && k.syms[s].kind != Unknown
    requires DefaultName(k, w, s) == Some(StringIn(w, s))
    ensures var r := SymStr(k, Without(w, s), s);
            r.Some? && r.value.0 == StringIn(w, s)
  {
    var w0, d := Without(w, s), k.syms[s];
    TableHas(k, rank, top, w, s);
    WithoutHas(k, w, s);
    assert SymFull(w.syms[s]) && SymJustified(k, w, s) && SymWellFormed(k, d);
    SymStrHas(k, w0, s);
    WithoutReads(k, w, s);
    DefaultStrHas(k, w, s);
    DefaultStrKept(k, w, w0, d);
    if d.kind != Str { ActiveRangeKept(k, w, w0, s); }
  }

  lemma DefaultNameHas(k: Kconf, rank: Item -> nat, top: nat, w: State, s: nat)
    requires Table(k, rank, top, w) && s < |k.syms|
    ensures DefaultName(k, w, s).Some? && Fixed(k, w, s).Some? && StrOf(k, w, Sym(s)).Some?
  {
    var d := k.syms[s];
    TableHas(k, rank, top, w, s);
    assert SymFull(w.syms[s]) && SymWellFormed(k, d);
    ExprHas(k, w, d.revDep);
    ExprHas(k, w, d.weakRevDep);
    DefaultTriHas(k, w, s);
    if !BoolLike(d.kind) && d.kind != Unknown { DefaultStrHas(k, w, s); }
  }

  lemma MinSymEnough(k: Kconf, rank: Item -> nat, top: nat, w: State, s: nat)
    requires Table(k, rank, top, w) && MinReady(k, w) && s < |k.syms|
    ensures SymEnough(k, w, MinSyms(k, w), s)
  {
    assert SymJustified(k, w, s) && SymFull(w.syms[s]);
    if k.syms[s].choice.None? && w.syms[s].vis != Some(0) && s !in MinSyms(k, w) && k.syms[s].kind != Unknown {
      DefaultNameHas(k, rank, top, w, s);
      if SymbolLine(k, w, s).None? {
        VisibleIsWritten(k, rank, top, w, s);
        WithoutSame(k, w, s);
      } else if BoolLike(k.syms[s].kind) {
        if Fixed(k, w, s) == Some(true) {
          FixedIsValue(k, rank, top, w, s);
        } else {
          DefaultNameIsValue(k, rank, top, w, s);
        }
      } else {
        DefaultStrIsValue(k, rank, top, w, s);
      }
    }
  }

  lemma MinChoiceEnough(k: Kconf, rank: Item -> nat, top: nat, w: State, c: nat)
    requires Table(k, rank, top, w) && NoEmptyChoice(k, w) && c < |k.choices|
    ensures ChoiceEnough(k, w, MinSyms(k, w), c)
  {
    TableChoice(k, rank, top, w, c);
    if ModeOf(k, w, c) == Some(2) && w.choices[c].sel.value.Some? {
      var x := w.choices[c].sel.value.value;
      SelectedIsWritten(k, rank, top, w, c, x);
      DefaultNameHas(k, rank, top, w, x);
      assert SymJustified(k, w, x) && SymFull(w.syms[x]);
      if x in MinSyms(k, w) {
        assert SavedY(k, w, MinSyms(k, w), c, x);
      } else {
        SelDefaultsHas(k, rank, top, w, c);
      }
    }
  }

  lemma SelDefaultsHas(k: Kconf, rank: Item -> nat, top: nat, w: State, c: nat)
    requires Table(k, rank, top, w) && c < |k.choices|
    ensures SelFromDefaults(k, w, c).Some?
  {
    var d := k.choices[c];
    forall z | InTree(k, z) ensures Has(k, w, z) {
      match z
      case ISym(t) => assert SymFull(w.syms[t]);
      case IChoice(x) => assert ChoiceFull(w.choices[x]);
    }
    assert ChoiceWellFormed(k, c);
    forall i | 0 <= i < |d.syms| ensures VisOf(w, d.syms[i]).Some? { assert SymFull(w.syms[d.syms[i]]); }
    forall i | 0 <= i < |d.defaults| ensures VisOf(w, d.defaults[i].item).Some? {
      MemberInTree(k, c, d.defaults[i].item);
      assert SymFull(w.syms[d.defaults[i].item]);
    }
    DefaultSelHas(k, w, d.defaults, 0);
    FirstVisibleHas(w, d.syms, 0);
  }

  /** Minimal file round trip, with the exact condition under which it holds. */
  lemma MinRoundTrip(k: Kconf, rank: Item -> nat, top: nat, w: State, lines: seq<string>, w': State)
    requires File(k, rank, top, w, lines, MinSyms(k, w)) && MinReady(k, w) && Reloaded(k, lines, w')
    ensures AllSame(k, w, w') <==> NoEmptyChoice(k, w)
  {
    var saved := MinSyms(k, w);
    ReloadedTable(k, rank, top, w, lines, saved, w');
    if NoEmptyChoice(k, w) {
      forall s | 0 <= s < |k.syms| ensures SymEnough(k, w, saved, s) { MinSymEnough(k, rank, top, w, s); }
      forall c | 0 <= c < |k.choices| ensures ChoiceEnough(k, w, saved, c) { MinChoiceEnough(k, rank, top, w, c); }
      EnoughRestores(k, rank, top, w, w', saved);
    }
    if AllSame(k, w, w') {
      EmptyChoiceLost(k, rank, top, w, w', saved);
    }
  }

  // ---- A choice that does not come back ----

  /** An optional bool choice that is always shown, with a single symbol that never is. */
  function HollowTree(): Kconf {
    Kconf([Symbol("A", Bool, Some(0), [Use(Known(0))], [], [], Use(Known(0)), Use(Known(0)), Use(Known(2)), false)],
          [Choice(Bool, true, [0], [Use(Known(2))], [])],
          Text("MODULES"),
          Numbers((s, b) => None, (n, kind) => ""))
  }

  /** All its values when the user has set this mode. */
  function HollowTable(mode: Option<Tri>): State {
    State([SymState(None, Some(0), Some(0), Some("n"), Some([]), false, false, {})],
          [ChoiceState(mode, None, Some(2), Some(None), Some([0, 2]), false, {})])
  }

  function HollowRank(z: Item): nat {
    0
  }

  lemma HollowTreeOk(k: Kconf)
    requires k == HollowTree()
    ensures WellFormed(k) && Ranked(k, HollowRank, 1) && Propagated(k) && NoModules(k)
  {
    NothingMentioned(k);
  }

  lemma HollowJustified(k: Kconf, w: State, mode: Option<Tri>)
    requires k == HollowTree() && w == HollowTable(mode) && (mode == None || mode == Some(2))
    ensures Solves(k, w) && ModeOf(k, w, 0) == Some(if mode == None then 0 else 2)
  {
    assert PromptVis(k, w, k.syms[0].prompts, 0) == Some(0) && PromptVis(k, w, k.choices[0].prompts, 0) == Some(0);
    assert SymVis(k, w, 0) == Some(0) && ChoiceVis(k, w, 0) == Some(2);
    assert FirstVisible(w, [0], 1) == Some(None) && FirstVisible(w, [0], 0) == Some(None);
    assert ChoiceSel(k, w, 0) == Some(None);
    assert SymJustified(k, w, 0) && ChoiceJustified(k, w, 0);
  }

  lemma HollowSolved(mode: Option<Tri>)
    requires mode == None || mode == Some(2)
    ensures Table(HollowTree(), HollowRank, 1, HollowTable(mode))
    ensures ModeOf(HollowTree(), HollowTable(mode), 0) == Some(if mode == None then 0 else 2)
  {
    HollowTreeOk(HollowTree());
    HollowJustified(HollowTree(), HollowTable(mode), mode);
  }

  lemma NothingMentioned(k: Kconf)
    requires k == HollowTree()
    ensures forall z :: !SymMentions(k.syms[0], z) && !ChoiceMentions(k.choices[0], z)
  {
  }

  /** Nothing is written, by either writer. */
  lemma HollowFile(w: State)
    requires w == HollowTable(Some(2))
    ensures var k := HollowTree();
      && File(k, HollowRank, 1, w, [], WrittenSyms(k, w)) && File(k, HollowRank, 1, w, [], MinSyms(k, w))
      && UnwrittenUnset(k, w) && MinReady(k, w)
  {
    var k := HollowTree();
    HollowSolved(Some(2));
    assert SymbolLine(k, w, 0) == None;
    assert WrittenSyms(k, w) == {} && MinSyms(k, w) == {};
  }

  lemma HollowReloaded(k: Kconf, g: Settings)
    requires k == HollowTree() && g == NoSettings(k)
    ensures Reloaded(k, [], HollowTable(None))
  {
    HollowSolved(None);
    var g' := LoadAll(k, g, [], true);
    assert g'.values == [None] && g'.modes == [None] && g'.picks == [None];
    assert SameUser(StateOf(g'), HollowTable(None));
  }

  /**
    The user sets the choice to y.  Nothing is written, and after loading, the
    choice is back in n mode, although the other premises of both round trips hold.
   */
  lemma EmptyChoiceForgotten()
    ensures var k, w, w' := HollowTree(), HollowTable(Some(2)), HollowTable(None);
      && File(k, HollowRank, 1, w, [], WrittenSyms(k, w)) && File(k, HollowRank, 1, w, [], MinSyms(k, w))
      && UnwrittenUnset(k, w) && MinReady(k, w) && Reloaded(k, [], w')
      && !NoEmptyChoice(k, w) && !AllSame(k, w, w')
      && ModeOf(k, w, 0) == Some(2) && ModeOf(k, w', 0) == Some(0)
  {
    var k, w, w' := HollowTree(), HollowTable(Some(2)), HollowTable(None);
    HollowSolved(Some(2));
    HollowSolved(None);
    HollowFile(w);
    HollowReloaded(k, NoSettings(k));
    assert !ChoiceSame(k, w, w', 0);
  }
}
