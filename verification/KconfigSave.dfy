/**
  The lines that save a symbol, and what loading a file made of such lines does
  to a configuration without settings.
 */
module KconfigSave {
  import opened Common
  import opened KconfigModel
  import opened KconfigValues
  import opened KconfigCaching
  import opened KconfigSettings
  import opened KconfigCache
  import opened KconfigChoices
  import opened KconfigRestore
  import opened KconfigLoad
  import opened ConfigText

  /** The line of a symbol in a .config file, if it gets one. */
  function SymbolLine(k: Kconf, w: State, s: nat): Option<string>
    requires s < |k.syms|
  {
    var d := k.syms[s];
    if s >= |w.syms| || !w.syms[s].write || d.kind == Unknown then None
    else if BoolLike(d.kind) then
      Some(if ValueIn(w, s) != 0 then SetLine(d.name, TriName(ValueIn(w, s))) else UnsetLine(d.name))
    else if d.kind == Str then Some(SetLine(d.name, Quoted(StringIn(w, s))))
    else Some(SetLine(d.name, StringIn(w, s)))
  }

  /** The lines as they stand in a file. */
  lemma LineText(k: Kconf, w: State, s: nat)
    requires s < |k.syms| && s < |w.syms|
    ensures var d, name := k.syms[s], "CONFIG_" + k.syms[s].name;
      && (!w.syms[s].write || d.kind == Unknown ==> SymbolLine(k, w, s) == None)
      && (w.syms[s].write && BoolLike(d.kind) && w.syms[s].tri == Some(0) ==>
            SymbolLine(k, w, s) == Some("# " + name + " is not set"))
      && (w.syms[s].write && BoolLike(d.kind) && w.syms[s].tri == Some(1) ==> SymbolLine(k, w, s) == Some(name + "=" + "m"))
      && (w.syms[s].write && BoolLike(d.kind) && w.syms[s].tri == Some(2) ==> SymbolLine(k, w, s) == Some(name + "=" + "y"))
      && (w.syms[s].write && w.syms[s].str.Some? && (d.kind == Int || d.kind == Hex) ==>
            SymbolLine(k, w, s) == Some(name + "=" + w.syms[s].str.value))
      && (w.syms[s].write && w.syms[s].str.Some? && d.kind == Str ==>
            SymbolLine(k, w, s) == Some(name + "=" + ("\"" + Escape(w.syms[s].str.value) + "\"")))
  {
    assert "# CONFIG_" + k.syms[s].name == "# " + ("CONFIG_" + k.syms[s].name);
  }

  /** Names that a line can carry, one symbol each. */
  ghost predicate NamesOk(k: Kconf) {
    && (forall s | 0 <= s < |k.syms| :: GoodName(k.syms[s].name))
    && (forall s, t | 0 <= s < t < |k.syms| :: k.syms[s].name != k.syms[t].name)
  }

  /** Strings without line breaks, numbers without white space at the end. */
  ghost predicate TextsOk(k: Kconf, w: State) {
    && Fits(k, w)
    && forall s | 0 <= s < |k.syms| && !BoolLike(k.syms[s].kind) ::
         if k.syms[s].kind == Str then NoBreak(StringIn(w, s)) else GoodValue(StringIn(w, s))
  }

  lemma {:induction false} FindSymIs(k: Kconf, s: nat, i: nat)
    requires NamesOk(k) && i <= s < |k.syms|
    ensures FindSym(k, k.syms[s].name, i) == Some(s)
    decreases s - i
  {
    if i < s { FindSymIs(k, s, i + 1); }
  }

  lemma EscapeNoBreak(s: string)
    requires NoBreak(s)
    ensures NoBreak(Escape(s))
  {
    if s != [] {
      EscapeCons(s);
      EscapeNoBreak(s[1..]);
    }
  }

  lemma QuotedGood(s: string)
    requires NoBreak(s)
    ensures GoodValue(Quoted(s))
  {
    EscapeNoBreak(s);
  }

  /** A saved bool or tristate value is n or y. */
  lemma NoMValue(k: Kconf, rank: Item -> nat, top: nat, w: State, s: nat)
    requires Table(k, rank, top, w) && s < |k.syms|
    ensures ValueIn(w, s) != 1
    ensures BoolLike(k.syms[s].kind) && k.syms[s].choice.Some? && ValueIn(w, s) == 2 ==> w.syms[s].write
  {
    assert SymJustified(k, w, s) && SymFull(w.syms[s]);
    NoMSymVis(k, w, s);
    if BoolLike(k.syms[s].kind) && k.syms[s].choice.None? { PlainTriBounds(k, w, s, w.syms[s].vis.value); }
  }

  /** Reading a saved line assigns the saved value to the same symbol. */
  lemma LineAssigns(k: Kconf, rank: Item -> nat, top: nat, w: State, s: nat)
    requires Table(k, rank, top, w) && NamesOk(k) && TextsOk(k, w) && s < |k.syms| && SymbolLine(k, w, s).Some?
    ensures var d := k.syms[s];
            Assigned(k, SymbolLine(k, w, s).value) ==
            Some(Assignment(s,
                            Txt(if BoolLike(d.kind) then TriName(ValueIn(w, s)) else StringIn(w, s)),
                            if BoolLike(d.kind) && d.choice.Some? && ValueIn(w, s) == 2 then Some(2) else None))
  {
    var d := k.syms[s];
    FindSymIs(k, s, 0);
    if BoolLike(d.kind) {
      NoMValue(k, rank, top, w, s);
      if ValueIn(w, s) != 0 { ParseSetLine(d.name, "y"); } else { ParseUnsetLine(d.name); }
    } else if d.kind == Str {
      QuotedGood(StringIn(w, s));
      ParseSetLine(d.name, Quoted(StringIn(w, s)));
      QuotedRoundTrip(StringIn(w, s));
    } else {
      ParseSetLine(d.name, StringIn(w, s));
    }
  }

  // ---- Loading saved lines ----

  /** The lines of a file assign exactly the saved symbols of w. */
  ghost predicate Saves(k: Kconf, w: State, lines: seq<string>, saved: set<nat>) {
    && (forall s | s in saved :: s < |k.syms| && SymbolLine(k, w, s).Some?)
    && (forall i | 0 <= i < |lines| :: Assigned(k, lines[i]).None? || SavedLine(k, w, lines[i], saved))
    && (forall s | s in saved :: SymbolLine(k, w, s).value in lines)
  }

  ghost predicate SavedLine(k: Kconf, w: State, line: string, saved: set<nat>)
    requires forall s | s in saved :: s < |k.syms|
  {
    exists s | s in saved :: SymbolLine(k, w, s) == Some(line)
  }

  ghost predicate File(k: Kconf, rank: Item -> nat, top: nat, w: State, lines: seq<string>, saved: set<nat>) {
    Table(k, rank, top, w) && NamesOk(k) && TextsOk(k, w) && Saves(k, w, lines, saved)
  }

  /** Settings that hold only saved values. */
  ghost predicate OnlySaved(k: Kconf, w: State, saved: set<nat>, g: Settings) {
    && SettingsOk(k, g)
    && (forall s | 0 <= s < |k.syms| && g.values[s].Some? :: s in saved && g.values[s] == SavedValue(k, w, s))
    && (forall c | 0 <= c < |k.choices| && g.picks[c].Some? :: SavedY(k, w, saved, c, g.picks[c].value))
    && (forall c | 0 <= c < |k.choices| && g.modes[c].Some? :: g.modes[c] == Some(2) && g.picks[c].Some?)
  }

  /** The saved value of s has arrived in g, and in its choice if it is y. */
  ghost predicate Arrived(k: Kconf, w: State, g: Settings, s: nat)
    requires Sized(k, g) && s < |k.syms| && ChoicesInTree(k)
  {
    && g.values[s] == SavedValue(k, w, s)
    && (g.values[s].Some? ==> g.symSet[s])
    && (k.syms[s].choice.Some? && ValueIn(w, s) == 2 ==>
          var c := k.syms[s].choice.value;
          g.picks[c].Some? && g.choiceSet[c] && (BoolLike(k.choices[c].kind) ==> g.modes[c] == Some(2)))
  }

  lemma TableChoicesInTree(k: Kconf)
    requires WellFormed(k)
    ensures ChoicesInTree(k)
  {
    forall s | 0 <= s < |k.syms| && k.syms[s].choice.Some? ensures k.syms[s].choice.value < |k.choices| {
      assert SymWellFormed(k, k.syms[s]);
    }
  }

  lemma SavedLineArrives(k: Kconf, rank: Item -> nat, top: nat, w: State, lines: seq<string>, saved: set<nat>,
                         g: Settings, s: nat)
    requires File(k, rank, top, w, lines, saved) && s in saved && OnlySaved(k, w, saved, g)
    ensures OnlySaved(k, w, saved, LoadLine(k, g, SymbolLine(k, w, s).value))
    ensures Arrived(k, w, LoadLine(k, g, SymbolLine(k, w, s).value), s)
  {
    var line := SymbolLine(k, w, s).value;
    LineAssigns(k, rank, top, w, s);
    NoMValue(k, rank, top, w, s);
    OkAfterLine(k, g, line);
    var d := k.syms[s];
    assert SymWellFormed(k, d);
    if BoolLike(d.kind) {
      assert ValidFor(k, d.kind, Num(ValueIn(w, s)));
    }
    if d.choice.Some? {
      assert BoolMembers(k, d.choice.value) && s in k.choices[d.choice.value].syms;
      MemberLineArrives(k, w, saved, g, s, line);
    } else {
      PlainLineArrives(k, w, saved, g, s, line);
    }
  }

  lemma PlainLineArrives(k: Kconf, w: State, saved: set<nat>, g: Settings, s: nat, line: string)
    requires OnlySaved(k, w, saved, g) && s in saved && s < |k.syms| && k.syms[s].choice.None?
    requires SettingsOk(k, LoadLine(k, g, line)) && k.syms[s].kind != Unknown
    requires var v := Txt(if BoolLike(k.syms[s].kind) then TriName(ValueIn(w, s)) else StringIn(w, s));
             Assigned(k, line) == Some(Assignment(s, v, None))
    requires BoolLike(k.syms[s].kind) ==> ValidFor(k, k.syms[s].kind, Num(ValueIn(w, s)))
    ensures OnlySaved(k, w, saved, LoadLine(k, g, line)) && Arrived(k, w, LoadLine(k, g, line), s)
  {
    var g' := LoadLine(k, g, line);
    assert g'.picks == g.picks && g'.modes == g.modes;
    if SavedValue(k, w, s).Some? {
      assert g'.values == g.values[s := SavedValue(k, w, s)];
    } else {
      assert g' == g;
    }
  }

  lemma MemberLineArrives(k: Kconf, w: State, saved: set<nat>, g: Settings, s: nat, line: string)
    requires OnlySaved(k, w, saved, g) && s in saved && s < |k.syms| && BoolLike(k.syms[s].kind)
    requires k.syms[s].choice.Some? && s in k.choices[k.syms[s].choice.value].syms
    requires SettingsOk(k, LoadLine(k, g, line)) && ValueIn(w, s) != 1
    requires Assigned(k, line) ==
             Some(Assignment(s, Txt(TriName(ValueIn(w, s))), if ValueIn(w, s) == 2 then Some(2) else None))
    requires ValidFor(k, k.syms[s].kind, Num(ValueIn(w, s)))
    ensures OnlySaved(k, w, saved, LoadLine(k, g, line)) && Arrived(k, w, LoadLine(k, g, line), s)
  {
    var g', c := LoadLine(k, g, line), k.syms[s].choice.value;
    assert g'.values == g.values[s := Some(Num(ValueIn(w, s)))];
    if ValueIn(w, s) == 2 {
      assert SavedY(k, w, saved, c, s);
      assert g'.picks == g.picks[c := Some(s)];
    } else {
      assert g'.picks == g.picks && g'.modes == g.modes;
    }
  }

  /** What has arrived stays, since every line assigns saved values. */
  lemma ArrivedStays(k: Kconf, rank: Item -> nat, top: nat, w: State, lines: seq<string>, saved: set<nat>,
                     g: Settings, s: nat, t: nat)
    requires File(k, rank, top, w, lines, saved) && s in saved && t in saved && OnlySaved(k, w, saved, g)
    requires Arrived(k, w, g, t)
    ensures Arrived(k, w, LoadLine(k, g, SymbolLine(k, w, s).value), t)
  {
    var line := SymbolLine(k, w, s).value;
    SavedLineArrives(k, rank, top, w, lines, saved, g, s);
    LineAssigns(k, rank, top, w, s);
    if t != s { OtherSymKept(k, g, line, s, t); }
  }

  /** A line leaves other symbols alone, and only adds to choices. */
  lemma OtherSymKept(k: Kconf, g: Settings, line: string, s: nat, t: nat)
    requires SettingsOk(k, g) && s < |k.syms| && t < |k.syms| && s != t
    requires Assigned(k, line).Some? && Assigned(k, line).value.s == s
    requires Assigned(k, line).value.mode.Some? ==> Assigned(k, line).value.mode == Some(2)
    ensures var g' := LoadLine(k, g, line);
            && g'.values[t] == g.values[t] && (g.symSet[t] ==> g'.symSet[t])
            && (forall c | 0 <= c < |k.choices| :: g.picks[c].Some? ==> g'.picks[c].Some?)
            && (forall c | 0 <= c < |k.choices| :: g.choiceSet[c] ==> g'.choiceSet[c])
            && (forall c | 0 <= c < |k.choices| :: g.modes[c] == Some(2) ==> g'.modes[c] == Some(2))
  {
  }

  ghost predicate ArrivedUpTo(k: Kconf, w: State, g: Settings, lines: seq<string>, saved: set<nat>, n: nat)
    requires Sized(k, g) && ChoicesInTree(k) && n <= |lines|
    requires forall s | s in saved :: s < |k.syms| && SymbolLine(k, w, s).Some?
  {
    forall s | s in saved && SymbolLine(k, w, s).value in lines[..n] :: Arrived(k, w, g, s)
  }

  lemma NextSavedLine(k: Kconf, rank: Item -> nat, top: nat, w: State, lines: seq<string>, saved: set<nat>,
                      g: Settings, n: nat, s: nat)
    requires File(k, rank, top, w, lines, saved) && n < |lines| && OnlySaved(k, w, saved, g)
    requires ArrivedUpTo(k, w, g, lines, saved, n) && s in saved && SymbolLine(k, w, s) == Some(lines[n])
    ensures var g' := LoadLine(k, g, lines[n]);
            OnlySaved(k, w, saved, g') && ArrivedUpTo(k, w, g', lines, saved, n + 1)
  {
    var g' := LoadLine(k, g, lines[n]);
    SavedLineArrives(k, rank, top, w, lines, saved, g, s);
    forall t | t in saved && (SymbolLine(k, w, t) == Some(lines[n]) || Arrived(k, w, g, t)) ensures Arrived(k, w, g', t) {
      StillArrived(k, rank, top, w, lines, saved, g, g', s, t);
    }
    ArrivedNext(k, w, g, g', lines, saved, n);
  }

  lemma ArrivedNext(k: Kconf, w: State, g: Settings, g': Settings, lines: seq<string>, saved: set<nat>, n: nat)
    requires Sized(k, g) && Sized(k, g') && ChoicesInTree(k) && n < |lines|
    requires forall s | s in saved :: s < |k.syms| && SymbolLine(k, w, s).Some?
    requires ArrivedUpTo(k, w, g, lines, saved, n)
    requires forall t | t in saved && (SymbolLine(k, w, t) == Some(lines[n]) || Arrived(k, w, g, t)) :: Arrived(k, w, g', t)
    ensures ArrivedUpTo(k, w, g', lines, saved, n + 1)
  {
    assert lines[..n + 1] == lines[..n] + [lines[n]];
  }

  lemma StillArrived(k: Kconf, rank: Item -> nat, top: nat, w: State, lines: seq<string>, saved: set<nat>,
                     g: Settings, g': Settings, s: nat, t: nat)
    requires File(k, rank, top, w, lines, saved) && OnlySaved(k, w, saved, g) && s in saved && t in saved
    requires g' == LoadLine(k, g, SymbolLine(k, w, s).value)
    requires SymbolLine(k, w, t) == SymbolLine(k, w, s) || Arrived(k, w, g, t)
    ensures Sized(k, g') && Arrived(k, w, g', t)
  {
    if SymbolLine(k, w, t) == SymbolLine(k, w, s) {
      SavedLineArrives(k, rank, top, w, lines, saved, g, t);
    } else {
      ArrivedStays(k, rank, top, w, lines, saved, g, s, t);
    }
  }

  lemma NextQuietLine(k: Kconf, rank: Item -> nat, top: nat, w: State, lines: seq<string>, saved: set<nat>,
                      g: Settings, n: nat)
    requires File(k, rank, top, w, lines, saved) && n < |lines| && Sized(k, g) && ChoicesInTree(k)
    requires ArrivedUpTo(k, w, g, lines, saved, n) && Assigned(k, lines[n]).None?
    ensures LoadLine(k, g, lines[n]) == g && ArrivedUpTo(k, w, g, lines, saved, n + 1)
  {
    assert lines[..n + 1] == lines[..n] + [lines[n]];
    forall t | t in saved ensures SymbolLine(k, w, t) != Some(lines[n]) { LineAssigns(k, rank, top, w, t); }
  }

  lemma NextLine(k: Kconf, rank: Item -> nat, top: nat, w: State, lines: seq<string>, saved: set<nat>,
                 g: Settings, n: nat)
    requires File(k, rank, top, w, lines, saved) && n < |lines| && OnlySaved(k, w, saved, g)
    requires ArrivedUpTo(k, w, g, lines, saved, n)
    ensures var g' := LoadLine(k, g, lines[n]);
            OnlySaved(k, w, saved, g') && ArrivedUpTo(k, w, g', lines, saved, n + 1)
  {
    if Assigned(k, lines[n]).Some? {
      var s :| s in saved && SymbolLine(k, w, s) == Some(lines[n]);
      NextSavedLine(k, rank, top, w, lines, saved, g, n, s);
    } else {
      NextQuietLine(k, rank, top, w, lines, saved, g, n);
    }
  }

  lemma NothingArrived(k: Kconf, w: State, lines: seq<string>, saved: set<nat>)
    requires ChoicesInTree(k) && Saves(k, w, lines, saved)
    ensures var g := ClearMarks(NoSettings(k));
            OnlySaved(k, w, saved, g) && ArrivedUpTo(k, w, g, lines, saved, 0)
  {
  }

  lemma LoadNext(k: Kconf, g0: Settings, lines: seq<string>, n: nat, g: Settings)
    requires Sized(k, g0) && ChoicesInTree(k) && n < |lines| && g == LoadLines(k, g0, lines, n)
    ensures LoadLine(k, g, lines[n]) == LoadLines(k, g0, lines, n + 1)
  {
  }

  lemma LinesArrive(k: Kconf, rank: Item -> nat, top: nat, w: State, lines: seq<string>, saved: set<nat>, g0: Settings)
    returns (g: Settings)
    requires File(k, rank, top, w, lines, saved) && ChoicesInTree(k)
    requires OnlySaved(k, w, saved, g0) && ArrivedUpTo(k, w, g0, lines, saved, 0)
    ensures g == LoadLines(k, g0, lines, |lines|)
    ensures OnlySaved(k, w, saved, g) && ArrivedUpTo(k, w, g, lines, saved, |lines|)
  {
    g := g0;
    for n := 0 to |lines|
      invariant g == LoadLines(k, g0, lines, n)
      invariant OnlySaved(k, w, saved, g) && ArrivedUpTo(k, w, g, lines, saved, n)
    {
      NextLine(k, rank, top, w, lines, saved, g, n);
      LoadNext(k, g0, lines, n, g);
      g := LoadLine(k, g, lines[n]);
    }
  }

  /** After the whole file every saved symbol has arrived, and unsetting unmarked items takes nothing away. */
  lemma FileArrives(k: Kconf, rank: Item -> nat, top: nat, w: State, lines: seq<string>, saved: set<nat>)
    requires File(k, rank, top, w, lines, saved)
    ensures ChoicesInTree(k)
    ensures var g := LoadAll(k, NoSettings(k), lines, true);
            OnlySaved(k, w, saved, g) && forall s | s in saved :: Arrived(k, w, g, s)
  {
    TableChoicesInTree(k);
    NothingArrived(k, w, lines, saved);
    var g := LinesArrive(k, rank, top, w, lines, saved, ClearMarks(NoSettings(k)));
    assert lines[..|lines|] == lines;
    MarkedStays(k, w, saved, g);
  }

  lemma MarkedStays(k: Kconf, w: State, saved: set<nat>, g: Settings)
    requires WellFormed(k) && OnlySaved(k, w, saved, g)
    requires forall s | s in saved :: s < |k.syms| && Arrived(k, w, g, s)
    ensures OnlySaved(k, w, saved, UnsetUnmarked(k, g))
    ensures forall s | s in saved :: Arrived(k, w, UnsetUnmarked(k, g), s)
  {
    var r := UnsetUnmarked(k, g);
    forall c | 0 <= c < |k.choices| && g.picks[c].Some? ensures g.choiceSet[c] {
      var s := g.picks[c].value;
      assert SavedY(k, w, saved, c, s);
      MemberInTree(k, c, s);
      assert Arrived(k, w, g, s);
    }
  }
}
