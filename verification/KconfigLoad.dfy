/**
  Loading a .config file, and how far the result depends on what was set before.
 */
module KconfigLoad {
  import opened Common
  import opened KconfigModel
  import opened KconfigValues
  import opened KconfigInvalidate
  import opened KconfigSettings
  import opened KconfigCache
  import opened ConfigText

  /** What one line of a file asks for: a value for a symbol and possibly a mode for its choice. */
  datatype Assignment = Assignment(s: nat, value: Value, mode: Option<Tri>)

  function FindSym(k: Kconf, name: string, i: nat): (r: Option<nat>)
    requires i <= |k.syms|
    ensures r.Some? ==> r.value < |k.syms| && k.syms[r.value].name == name
    ensures r.None? ==> forall j | i <= j < |k.syms| :: k.syms[j].name != name
    decreases |k.syms| - i
  {
    if i == |k.syms| then None else if k.syms[i].name == name then Some(i) else FindSym(k, name, i + 1)
  }

  predicate TriLetter(kind: Kind, val: string) {
    val != [] && (val[0] == 'y' || val[0] == 'n' || (kind == Tristate && val[0] == 'm'))
  }

  /** Only the first character of a bool or tristate value counts. */
  function Assigned(k: Kconf, line: string): (r: Option<Assignment>)
    ensures r.Some? ==> r.value.s < |k.syms|
    ensures r.Some? && r.value.mode.Some? ==> k.syms[r.value.s].choice.Some?
  {
    match ParseLine(line)
    case Other => None
    case Unset(name) =>
      var s :- FindSym(k, name, 0);
      if BoolLike(k.syms[s].kind) then Some(Assignment(s, Txt("n"), None)) else None
    case Set(name, val) =>
      var s :- FindSym(k, name, 0);
      if BoolLike(k.syms[s].kind) then
        if !TriLetter(k.syms[s].kind, val) then None
        else
          Some(Assignment(s, Txt([val[0]]),
                          if k.syms[s].choice.Some? && val[0] != 'n' then Some(if val[0] == 'y' then 2 else 1) else None))
      else if k.syms[s].kind == Str then
        var lit :- Literal(val);
        Some(Assignment(s, Txt(Unescape(lit)), None))
      else Some(Assignment(s, Txt(val), None))
  }

  ghost function Apply(k: Kconf, g: Settings, a: Assignment): (r: Settings)
    requires Sized(k, g) && ChoicesInTree(k) && a.s < |k.syms| && (a.mode.Some? ==> k.syms[a.s].choice.Some?)
    ensures Sized(k, r)
  {
    SetSym(k, if a.mode.Some? then SetMode(k, g, k.syms[a.s].choice.value, a.mode.value) else g, a.s, a.value)
  }

  ghost function LoadLine(k: Kconf, g: Settings, line: string): (r: Settings)
    requires Sized(k, g) && ChoicesInTree(k)
    ensures Sized(k, r)
  {
    var a := Assigned(k, line);
    if a.Some? then Apply(k, g, a.value) else g
  }

  /** The settings after the first n lines. */
  ghost function LoadLines(k: Kconf, g: Settings, lines: seq<string>, n: nat): (r: Settings)
    requires Sized(k, g) && ChoicesInTree(k) && n <= |lines|
    ensures Sized(k, r)
  {
    if n == 0 then g else LoadLine(k, LoadLines(k, g, lines, n - 1), lines[n - 1])
  }

  function ClearMarks(g: Settings): Settings {
    g.(symSet := seq(|g.symSet|, i => false), choiceSet := seq(|g.choiceSet|, i => false))
  }

  function UnsetUnmarked(k: Kconf, g: Settings): (r: Settings)
    requires Sized(k, g)
    ensures Sized(k, r)
  {
    g.(values := seq(|g.values|, i requires 0 <= i < |g.values| => if g.symSet[i] then g.values[i] else None),
       modes := seq(|g.modes|, i requires 0 <= i < |g.modes| => if g.choiceSet[i] then g.modes[i] else None),
       picks := seq(|g.picks|, i requires 0 <= i < |g.picks| => if g.choiceSet[i] then g.picks[i] else None))
  }

  ghost function LoadAll(k: Kconf, g: Settings, lines: seq<string>, replace: bool): (r: Settings)
    requires Sized(k, g) && ChoicesInTree(k)
    ensures Sized(k, r)
  {
    if replace then UnsetUnmarked(k, LoadLines(k, ClearMarks(g), lines, |lines|)) else LoadLines(k, g, lines, |lines|)
  }

  // ---- The loader ----

  /** The settings with the first ns symbol marks and nc choice marks cleared. */
  function ClearSome(g: Settings, ns: nat, nc: nat): Settings
    requires ns <= |g.symSet| && nc <= |g.choiceSet|
  {
    g.(symSet := seq(ns, i => false) + g.symSet[ns..], choiceSet := seq(nc, i => false) + g.choiceSet[nc..])
  }

  lemma ClearNext(g: Settings, ns: nat, nc: nat)
    requires ns <= |g.symSet| && nc <= |g.choiceSet|
    ensures var r := ClearSome(g, ns, nc);
            && (ns < |g.symSet| ==> ClearSome(g, ns + 1, nc) == r.(symSet := r.symSet[ns := false]))
            && (nc < |g.choiceSet| ==> ClearSome(g, ns, nc + 1) == r.(choiceSet := r.choiceSet[nc := false]))
  {
  }

  lemma ClearEnds(g: Settings)
    ensures ClearSome(g, 0, 0) == g
    ensures ClearSome(g, |g.symSet|, |g.choiceSet|) == ClearMarks(g)
  {
  }

  method MarksCleared(kc: Kconfig)
    requires kc.Valid() && Linked(kc.k, kc.Now())
    modifies kc.syms, kc.choices
    ensures kc.Valid() && Linked(kc.k, kc.Now())
    ensures SettingsOf(kc.Now()) == ClearMarks(SettingsOf(old(kc.Now())))
  {
    ghost var g := SettingsOf(kc.Now());
    ClearEnds(g);
    for s := 0 to |kc.syms|
      invariant kc.Valid() && Linked(kc.k, kc.Now())
      invariant SettingsOf(kc.Now()) == ClearSome(g, s, 0)
    {
      ClearNext(g, s, 0);
      kc.MarkSym(s, false);
    }
    for c := 0 to |kc.choices|
      invariant kc.Valid() && Linked(kc.k, kc.Now())
      invariant SettingsOf(kc.Now()) == ClearSome(g, |g.symSet|, c)
    {
      ClearNext(g, |g.symSet|, c);
      kc.MarkChoice(c, false);
    }
  }

  /** The settings with unmarked items unset, up to given counts. */
  function UnsetSome(k: Kconf, g: Settings, ns: nat, nc: nat): Settings
    requires Sized(k, g) && ns <= |k.syms| && nc <= |k.choices|
  {
    var r := UnsetUnmarked(k, g);
    g.(values := r.values[..ns] + g.values[ns..],
       modes := r.modes[..nc] + g.modes[nc..],
       picks := r.picks[..nc] + g.picks[nc..])
  }

  lemma UnsetNextSym(k: Kconf, g: Settings, s: nat)
    requires Sized(k, g) && s < |k.syms|
    ensures UnsetSome(k, g, s + 1, 0) ==
            if g.symSet[s] then UnsetSome(k, g, s, 0) else UnsetSym(k, UnsetSome(k, g, s, 0), s)
  {
  }

  lemma UnsetNextChoice(k: Kconf, g: Settings, c: nat)
    requires Sized(k, g) && c < |k.choices|
    ensures UnsetSome(k, g, |k.syms|, c + 1) ==
            if g.choiceSet[c] then UnsetSome(k, g, |k.syms|, c) else UnsetChoice(k, UnsetSome(k, g, |k.syms|, c), c)
  {
  }

  lemma UnsetSomeEnds(k: Kconf, g: Settings)
    requires Sized(k, g)
    ensures UnsetSome(k, g, 0, 0) == g
    ensures UnsetSome(k, g, |k.syms|, |k.choices|) == UnsetUnmarked(k, g)
  {
  }

  method UnmarkedUnset(kc: Kconfig)
    requires kc.Valid() && Linked(kc.k, kc.Now())
    modifies kc.syms, kc.choices
    ensures kc.Valid() && Linked(kc.k, kc.Now())
    ensures SettingsOf(kc.Now()) == UnsetUnmarked(kc.k, SettingsOf(old(kc.Now())))
  {
    UnsetSomeEnds(kc.k, SettingsOf(kc.Now()));
    UnmarkedSymsUnset(kc);
    UnmarkedChoicesUnset(kc, SettingsOf(old(kc.Now())));
  }

  method UnmarkedSymsUnset(kc: Kconfig)
    requires kc.Valid() && Linked(kc.k, kc.Now())
    modifies kc.syms, kc.choices
    ensures kc.Valid() && Linked(kc.k, kc.Now())
    ensures SettingsOf(kc.Now()) == UnsetSome(kc.k, SettingsOf(old(kc.Now())), |kc.k.syms|, 0)
  {
    ghost var k, g := kc.k, SettingsOf(kc.Now());
    UnsetSomeEnds(k, g);
    for s := 0 to |kc.syms|
      invariant kc.Valid() && Linked(k, kc.Now())
      invariant SettingsOf(kc.Now()) == UnsetSome(k, g, s, 0)
    {
      UnsetNextSym(k, g, s);
      assert kc.syms[s].wasSet == SettingsOf(kc.Now()).symSet[s] == g.symSet[s];
      if !kc.syms[s].wasSet {
        kc.UnsetValue(s);
      }
    }
  }

  method UnmarkedChoicesUnset(kc: Kconfig, ghost g: Settings)
    requires kc.Valid() && Linked(kc.k, kc.Now())
    requires Sized(kc.k, g) && SettingsOf(kc.Now()) == UnsetSome(kc.k, g, |kc.k.syms|, 0)
    modifies kc.syms, kc.choices
    ensures kc.Valid() && Linked(kc.k, kc.Now())
    ensures SettingsOf(kc.Now()) == UnsetSome(kc.k, g, |kc.k.syms|, |kc.k.choices|)
  {
    ghost var k := kc.k;
    for c := 0 to |kc.choices|
      invariant kc.Valid() && Linked(k, kc.Now())
      invariant SettingsOf(kc.Now()) == UnsetSome(k, g, |k.syms|, c)
    {
      UnsetNextChoice(k, g, c);
      assert kc.choices[c].wasSet == SettingsOf(kc.Now()).choiceSet[c] == g.choiceSet[c];
      if !kc.choices[c].wasSet {
        kc.UnsetChoiceValue(c);
      }
    }
  }

  method LoadConfig(kc: Kconfig, lines: seq<string>, replace: bool)
    requires kc.Valid() && Linked(kc.k, kc.Now())
    modifies kc.syms, kc.choices
    ensures kc.Valid() && Linked(kc.k, kc.Now()) && ChoicesInTree(kc.k)
    ensures SettingsOf(kc.Now()) == LoadAll(kc.k, SettingsOf(old(kc.Now())), lines, replace)
  {
    ghost var k := kc.k;
    assert forall s | 0 <= s < |k.syms| :: SymWellFormed(k, k.syms[s]);
    if replace {
      MarksCleared(kc);
    }
    ApplyLines(kc, lines);
    if replace {
      UnmarkedUnset(kc);
    }
  }

  method ApplyLines(kc: Kconfig, lines: seq<string>)
    requires kc.Valid() && Linked(kc.k, kc.Now()) && ChoicesInTree(kc.k)
    modifies kc.syms, kc.choices
    ensures kc.Valid() && Linked(kc.k, kc.Now())
    ensures SettingsOf(kc.Now()) == LoadLines(kc.k, SettingsOf(old(kc.Now())), lines, |lines|)
  {
    ghost var k, g := kc.k, SettingsOf(kc.Now());
    for n := 0 to |lines|
      invariant kc.Valid() && Linked(k, kc.Now())
      invariant SettingsOf(kc.Now()) == LoadLines(k, g, lines, n)
    {
      ApplyLine(kc, lines[n]);
    }
  }

  method ApplyLine(kc: Kconfig, line: string)
    requires kc.Valid() && Linked(kc.k, kc.Now()) && ChoicesInTree(kc.k)
    modifies kc.syms, kc.choices
    ensures kc.Valid() && Linked(kc.k, kc.Now())
    ensures SettingsOf(kc.Now()) == LoadLine(kc.k, SettingsOf(old(kc.Now())), line)
  {
    var a := Assigned(kc.k, line);
    if a.Some? {
      if a.value.mode.Some? {
        var _ := kc.SetChoiceValue(kc.k.syms[a.value.s].choice.value, a.value.mode.value);
      }
      var _ := kc.SetValue(a.value.s, a.value.value);
    }
  }

  // ---- What a line sets ----

  /**
    A line that gives a bool or tristate symbol the value n, m or y makes it the user
    value; m and y also set the mode of its choice, and y picks the symbol.
   */
  lemma LevelLineLoads(k: Kconf, g: Settings, s: nat, t: Tri)
    requires Sized(k, g) && ChoicesInTree(k) && s < |k.syms| && GoodName(k.syms[s].name) && FindSym(k, k.syms[s].name, 0) == Some(s)
    requires k.syms[s].kind == Tristate || (k.syms[s].kind == Bool && t != 1)
    ensures var g' := LoadLine(k, g, SetLine(k.syms[s].name, TriName(t)));
      && g'.values == g.values[s := Some(Num(t))]
      && (k.syms[s].choice.None? || t == 0 ==> g'.modes == g.modes && g'.picks == g.picks)
      && (k.syms[s].choice.Some? && t != 0 ==>
            var c := k.syms[s].choice.value;
            && g'.modes == (if ModeAssignable(k.choices[c].kind, t) then g.modes[c := Some(t)] else g.modes)
            && g'.picks == if t == 2 then g.picks[c := Some(s)] else g.picks)
  {
    LevelAssigned(k, s, t);
    LevelApplied(k, g, s, t, Assignment(s, Txt(TriName(t)), if k.syms[s].choice.Some? && t != 0 then Some(t) else None));
  }

  lemma LevelAssigned(k: Kconf, s: nat, t: Tri)
    requires s < |k.syms| && GoodName(k.syms[s].name) && FindSym(k, k.syms[s].name, 0) == Some(s)
    requires k.syms[s].kind == Tristate || (k.syms[s].kind == Bool && t != 1)
    ensures Assigned(k, SetLine(k.syms[s].name, TriName(t))) ==
            Some(Assignment(s, Txt(TriName(t)), if k.syms[s].choice.Some? && t != 0 then Some(t) else None))
  {
    ParseSetLine(k.syms[s].name, TriName(t));
  }

  lemma LevelApplied(k: Kconf, g: Settings, s: nat, t: Tri, a: Assignment)
    requires Sized(k, g) && ChoicesInTree(k) && s < |k.syms|
    requires k.syms[s].kind == Tristate || (k.syms[s].kind == Bool && t != 1)
    requires a == Assignment(s, Txt(TriName(t)), if k.syms[s].choice.Some? && t != 0 then Some(t) else None)
    ensures var g' := Apply(k, g, a);
      && g'.values == g.values[s := Some(Num(t))]
      && (k.syms[s].choice.None? || t == 0 ==> g'.modes == g.modes && g'.picks == g.picks)
      && (k.syms[s].choice.Some? && t != 0 ==>
            var c := k.syms[s].choice.value;
            && g'.modes == (if ModeAssignable(k.choices[c].kind, t) then g.modes[c := Some(t)] else g.modes)
            && g'.picks == if t == 2 then g.picks[c := Some(s)] else g.picks)
  {
    assert Normalized(k.syms[s].kind, Txt(TriName(t))) == Num(t);
    assert g.values[s] == Some(Num(t)) ==> g.values == g.values[s := Some(Num(t))];
    if k.syms[s].choice.Some? {
      var c := k.syms[s].choice.value;
      assert g.modes[c] == Some(t) ==> g.modes == g.modes[c := Some(t)];
    }
  }

  /** The comment that says a symbol is not set gives it the value n. */
  lemma UnsetLineLoads(k: Kconf, g: Settings, s: nat)
    requires Sized(k, g) && ChoicesInTree(k) && s < |k.syms| && GoodName(k.syms[s].name) && FindSym(k, k.syms[s].name, 0) == Some(s)
    requires BoolLike(k.syms[s].kind)
    ensures var g' := LoadLine(k, g, UnsetLine(k.syms[s].name));
      g'.values == g.values[s := Some(Num(0))] && g'.modes == g.modes && g'.picks == g.picks
  {
    ParseUnsetLine(k.syms[s].name);
    assert g.values[s] == Some(Num(0)) ==> g.values == g.values[s := Some(Num(0))];
  }

  /** A line with a quoted text gives a string symbol that text; a line for a number gives it as it is written, if it is valid. */
  lemma TextLineLoads(k: Kconf, g: Settings, s: nat, text: string)
    requires Sized(k, g) && ChoicesInTree(k) && s < |k.syms| && GoodName(k.syms[s].name) && FindSym(k, k.syms[s].name, 0) == Some(s)
    requires k.syms[s].choice.None?
    ensures k.syms[s].kind == Str && GoodValue(Quoted(text)) ==>
              LoadLine(k, g, SetLine(k.syms[s].name, Quoted(text))).values == g.values[s := Some(Txt(text))]
    ensures (k.syms[s].kind == Int || k.syms[s].kind == Hex) && GoodValue(text) && ValidFor(k, k.syms[s].kind, Txt(text)) ==>
              LoadLine(k, g, SetLine(k.syms[s].name, text)).values == g.values[s := Some(Txt(text))]
  {
    assert g.values[s] == Some(Txt(text)) ==> g.values == g.values[s := Some(Txt(text))];
    if GoodValue(Quoted(text)) { ParseSetLine(k.syms[s].name, Quoted(text)); }
    if GoodValue(text) { ParseSetLine(k.syms[s].name, text); }
    QuotedRoundTrip(text);
  }

  /**
    Lines that set nothing: an unknown name; for a bool or tristate symbol a value
    that does not begin with y, n or, if it is tristate, m; for a string no quoted
    text at the start; for a number one that is not valid.
   */
  lemma MalformedIgnored(k: Kconf, g: Settings, name: string, val: string)
    requires Sized(k, g) && ChoicesInTree(k) && GoodName(name) && GoodValue(val)
    ensures var g', s := LoadLine(k, g, SetLine(name, val)), FindSym(k, name, 0);
      && (s.None? ==> g' == g)
      && (s.Some? && k.syms[s.value].kind == Bool && (val == "" || (val[0] != 'y' && val[0] != 'n')) ==> g' == g)
      && (s.Some? && k.syms[s.value].kind == Tristate && (val == "" || (val[0] != 'y' && val[0] != 'n' && val[0] != 'm')) ==> g' == g)
      && (s.Some? && k.syms[s.value].kind == Str && (val == "" || val[0] != '"') ==> g' == g)
      && (s.Some? && InvalidNumber(k, g, s.value, val) ==> g' == g)
  {
    ParseSetLine(name, val);
  }

  predicate InvalidNumber(k: Kconf, g: Settings, s: nat, val: string)
    requires Sized(k, g) && s < |k.syms|
  {
    && (k.syms[s].kind == Int || k.syms[s].kind == Hex) && k.syms[s].choice.None?
    && !ValidFor(k, k.syms[s].kind, Txt(val)) && g.values[s] != Some(Txt(val))
  }

  /** Of the value of a bool or tristate symbol only the first character counts. */
  lemma FirstLetterCounts(k: Kconf, name: string, val: string, s: nat)
    requires GoodName(name) && GoodValue(val) && FindSym(k, name, 0) == Some(s) && BoolLike(k.syms[s].kind) && val != ""
    requires GoodValue([val[0]])
    ensures Assigned(k, SetLine(name, val)) == Assigned(k, SetLine(name, [val[0]]))
  {
    ParseSetLine(name, val);
    ParseSetLine(name, [val[0]]);
  }

  // ---- Loading on top of earlier settings ----

  /** What every reachable configuration satisfies. */
  ghost predicate SettingsOk(k: Kconf, g: Settings) {
    && Sized(k, g) && ChoicesInTree(k)
    && (forall s | 0 <= s < |k.syms| && g.values[s].Some? :: ValidFor(k, k.syms[s].kind, g.values[s].value))
    && (forall c | 0 <= c < |k.choices| && g.modes[c].Some? :: ModeAssignable(k.choices[c].kind, g.modes[c].value))
  }

  /** In such a configuration the setters return whether the value is valid for the type. */
  lemma AcceptedIsValid(k: Kconf, g: Settings)
    requires SettingsOk(k, g)
    ensures forall s, v | 0 <= s < |k.syms| :: Accepted(k, g, s, v) <==> ValidFor(k, k.syms[s].kind, Normalized(k.syms[s].kind, v))
    ensures forall c, v: Tri | 0 <= c < |k.choices| :: ModeAccepted(k, g, c, v) <==> ModeAssignable(k.choices[c].kind, v)
  {
  }

  lemma OkAfterSet(k: Kconf, g: Settings, s: nat, v: Value)
    requires SettingsOk(k, g) && s < |k.syms|
    ensures SettingsOk(k, SetSym(k, g, s, v)) && SettingsOk(k, UnsetSym(k, g, s))
  {
  }

  lemma OkAfterSetMode(k: Kconf, g: Settings, c: nat, v: Tri)
    requires SettingsOk(k, g) && c < |k.choices|
    ensures SettingsOk(k, SetMode(k, g, c, v)) && SettingsOk(k, UnsetChoice(k, g, c))
  {
  }

  lemma OkAfterLine(k: Kconf, g: Settings, line: string)
    requires SettingsOk(k, g)
    ensures SettingsOk(k, LoadLine(k, g, line))
  {
    var a := Assigned(k, line);
    if a.Some? {
      var g' := if a.value.mode.Some? then SetMode(k, g, k.syms[a.value.s].choice.value, a.value.mode.value) else g;
      if a.value.mode.Some? { OkAfterSetMode(k, g, k.syms[a.value.s].choice.value, a.value.mode.value); }
      OkAfterSet(k, g', a.value.s, a.value.value);
    }
  }

  /** A line that makes a symbol of c the user selection. */
  predicate Picks(k: Kconf, line: string, c: nat) {
    var a := Assigned(k, line);
    && a.Some? && k.syms[a.value.s].choice == Some(c)
    && Normalized(k.syms[a.value.s].kind, a.value.value) == Num(2)
  }

  /** A line that gives c a mode it can have. */
  predicate Modes(k: Kconf, line: string, c: nat) {
    var a := Assigned(k, line);
    && a.Some? && a.value.mode.Some? && k.syms[a.value.s].choice == Some(c)
    && c < |k.choices| && ModeAssignable(k.choices[c].kind, a.value.mode.value)
  }

  /**
    g is a load in progress on top of g0, f the same load on top of nothing:
    marked items agree, except that a choice whose selection the file has not
    touched still has the selection of g0.
   */
  ghost predicate InStep(k: Kconf, g0: Settings, g: Settings, f: Settings) {
    && SettingsOk(k, g) && SettingsOk(k, f) && Sized(k, g0)
    && g.symSet == f.symSet && g.choiceSet == f.choiceSet
    && (forall s | 0 <= s < |k.syms| && f.symSet[s] :: g.values[s] == f.values[s])
    && (forall c | 0 <= c < |k.choices| && f.choiceSet[c] :: g.modes[c] == f.modes[c])
    && (forall c | 0 <= c < |k.choices| :: g.picks[c] == if f.picks[c].Some? then f.picks[c] else g0.picks[c])
    && (forall c | 0 <= c < |k.choices| && f.picks[c].Some? :: f.choiceSet[c])
  }

  lemma StepMode(k: Kconf, g0: Settings, g: Settings, f: Settings, c: nat, v: Tri)
    requires InStep(k, g0, g, f) && c < |k.choices|
    ensures InStep(k, g0, SetMode(k, g, c, v), SetMode(k, f, c, v))
  {
    OkAfterSetMode(k, g, c, v);
    OkAfterSetMode(k, f, c, v);
  }

  lemma StepSet(k: Kconf, g0: Settings, g: Settings, f: Settings, s: nat, v: Value)
    requires InStep(k, g0, g, f) && s < |k.syms|
    requires k.syms[s].choice.Some? && Normalized(k.syms[s].kind, v) == Num(2) ==>
               g.modes[k.syms[s].choice.value] == f.modes[k.syms[s].choice.value]
    ensures InStep(k, g0, SetSym(k, g, s, v), SetSym(k, f, s, v))
  {
    OkAfterSet(k, g, s, v);
    OkAfterSet(k, f, s, v);
  }

  lemma StepLine(k: Kconf, g0: Settings, g: Settings, f: Settings, line: string)
    requires InStep(k, g0, g, f)
    ensures InStep(k, g0, LoadLine(k, g, line), LoadLine(k, f, line))
  {
    var a := Assigned(k, line);
    if a.Some? {
      var s, v, m := a.value.s, a.value.value, a.value.mode;
      if m.Some? {
        var c := k.syms[s].choice.value;
        StepMode(k, g0, g, f, c, m.value);
        StepSet(k, g0, SetMode(k, g, c, m.value), SetMode(k, f, c, m.value), s, v);
      } else {
        StepSet(k, g0, g, f, s, v);
      }
    }
  }

  lemma {:induction false} StepLines(k: Kconf, g0: Settings, lines: seq<string>, n: nat)
    requires SettingsOk(k, g0) && n <= |lines|
    ensures InStep(k, g0, LoadLines(k, ClearMarks(g0), lines, n), LoadLines(k, ClearMarks(NoSettings(k)), lines, n))
  {
    if n > 0 {
      StepLines(k, g0, lines, n - 1);
      StepLine(k, g0, LoadLines(k, ClearMarks(g0), lines, n - 1), LoadLines(k, ClearMarks(NoSettings(k)), lines, n - 1),
               lines[n - 1]);
    }
  }

  lemma {:induction false} OkAfterLines(k: Kconf, g: Settings, lines: seq<string>, n: nat)
    requires SettingsOk(k, g) && n <= |lines|
    ensures SettingsOk(k, LoadLines(k, g, lines, n))
  {
    if n > 0 {
      OkAfterLines(k, g, lines, n - 1);
      OkAfterLine(k, LoadLines(k, g, lines, n - 1), lines[n - 1]);
    }
  }

  predicate Touches(k: Kconf, line: string, c: nat) {
    Picks(k, line, c) || Modes(k, line, c)
  }

  lemma FreshMarksLine(k: Kconf, f: Settings, line: string, c: nat)
    requires SettingsOk(k, f) && c < |k.choices|
    ensures var f' := LoadLine(k, f, line);
            && (f'.picks[c].Some? <==> f.picks[c].Some? || Picks(k, line, c))
            && (f'.choiceSet[c] <==> f.choiceSet[c] || Touches(k, line, c))
  {
  }

  predicate AnyPicks(k: Kconf, lines: seq<string>, n: nat, c: nat)
    requires n <= |lines|
  {
    exists i | 0 <= i < n :: Picks(k, lines[i], c)
  }

  predicate AnyTouches(k: Kconf, lines: seq<string>, n: nat, c: nat)
    requires n <= |lines|
  {
    exists i | 0 <= i < n :: Touches(k, lines[i], c)
  }

  lemma AnyNext(k: Kconf, lines: seq<string>, n: nat, c: nat)
    requires 0 < n <= |lines|
    ensures AnyPicks(k, lines, n, c) <==> AnyPicks(k, lines, n - 1, c) || Picks(k, lines[n - 1], c)
    ensures AnyTouches(k, lines, n, c) <==> AnyTouches(k, lines, n - 1, c) || Touches(k, lines[n - 1], c)
  {
  }

  /** f has a selection in c, and a mark on c, exactly as the first n lines ask. */
  ghost predicate MarkedBy(k: Kconf, f: Settings, lines: seq<string>, n: nat, c: nat)
    requires Sized(k, f) && n <= |lines| && c < |k.choices|
  {
    (f.picks[c].Some? <==> AnyPicks(k, lines, n, c)) && (f.choiceSet[c] <==> AnyTouches(k, lines, n, c))
  }

  lemma MarkedNext(k: Kconf, f: Settings, lines: seq<string>, n: nat, c: nat)
    requires SettingsOk(k, f) && 0 < n <= |lines| && c < |k.choices| && MarkedBy(k, f, lines, n - 1, c)
    ensures MarkedBy(k, LoadLine(k, f, lines[n - 1]), lines, n, c)
  {
    FreshMarksLine(k, f, lines[n - 1], c);
    AnyNext(k, lines, n, c);
  }

  /** Which choices a load of the first n lines marks and selects in, starting from nothing. */
  lemma {:induction false} FreshMarks(k: Kconf, f0: Settings, lines: seq<string>, n: nat, c: nat)
    requires SettingsOk(k, f0) && n <= |lines| && c < |k.choices|
    requires f0.picks[c].None? && !f0.choiceSet[c]
    ensures MarkedBy(k, LoadLines(k, f0, lines, n), lines, n, c)
  {
    if n > 0 {
      FreshMarks(k, f0, lines, n - 1, c);
      OkAfterLines(k, f0, lines, n - 1);
      MarkedNext(k, LoadLines(k, f0, lines, n - 1), lines, n, c);
    }
  }

  /** The file gives the choice a mode but selects none of its symbols. */
  ghost predicate ModeWithoutPick(k: Kconf, lines: seq<string>, c: nat) {
    && (exists i | 0 <= i < |lines| :: Modes(k, lines[i], c))
    && forall i | 0 <= i < |lines| :: !Picks(k, lines[i], c)
  }

  lemma ModeWithoutPickIs(k: Kconf, lines: seq<string>, c: nat)
    ensures ModeWithoutPick(k, lines, c) <==>
            AnyTouches(k, lines, |lines|, c) && !AnyPicks(k, lines, |lines|, c)
  {
    if ModeWithoutPick(k, lines, c) {
      var i :| 0 <= i < |lines| && Modes(k, lines[i], c);
      assert Touches(k, lines[i], c);
    }
  }

  /** User values, modes and selections agree. */
  predicate SameSettings(g: Settings, f: Settings) {
    g.values == f.values && g.modes == f.modes && g.picks == f.picks
  }

  /** A replacing load on top of any settings, compared with the same load on a fresh instance. */
  lemma LoadOnTop(k: Kconf, g0: Settings, lines: seq<string>)
    requires SettingsOk(k, g0)
    ensures var g, f := LoadAll(k, g0, lines, true), LoadAll(k, NoSettings(k), lines, true);
            && g.values == f.values && g.modes == f.modes
            && forall c | 0 <= c < |k.choices| ::
                 g.picks[c] == if ModeWithoutPick(k, lines, c) then g0.picks[c] else f.picks[c]
    ensures forall c | 0 <= c < |k.choices| && ModeWithoutPick(k, lines, c) ::
              LoadAll(k, NoSettings(k), lines, true).picks[c].None?
  {
    StepLines(k, g0, lines, |lines|);
    var g, f := LoadAll(k, g0, lines, true), LoadAll(k, NoSettings(k), lines, true);
    forall c | 0 <= c < |k.choices|
      ensures g.picks[c] == if ModeWithoutPick(k, lines, c) then g0.picks[c] else f.picks[c]
      ensures ModeWithoutPick(k, lines, c) ==> f.picks[c].None?
    {
      FreshMarks(k, ClearMarks(NoSettings(k)), lines, |lines|, c);
      ModeWithoutPickIs(k, lines, c);
    }
  }

  /**
    Exactly when a replacing load forgets what was set before: the earlier
    settings must not select a symbol in a choice to which the file gives a mode
    without selecting a symbol.
   */
  lemma HistoryIndependentIff(k: Kconf, g0: Settings, lines: seq<string>)
    requires SettingsOk(k, g0)
    ensures SameSettings(LoadAll(k, g0, lines, true), LoadAll(k, NoSettings(k), lines, true)) <==>
            forall c | 0 <= c < |k.choices| && ModeWithoutPick(k, lines, c) :: g0.picks[c].None?
  {
    LoadOnTop(k, g0, lines);
    var g, f := LoadAll(k, g0, lines, true), LoadAll(k, NoSettings(k), lines, true);
    if SameSettings(g, f) {
      forall c | 0 <= c < |k.choices| && ModeWithoutPick(k, lines, c) ensures g0.picks[c].None? {
        assert g.picks[c] == g0.picks[c];
      }
    }
  }

  /** With only bool choices a replacing load never depends on what was set before. */
  lemma BoolChoicesForget(k: Kconf, g0: Settings, lines: seq<string>)
    requires SettingsOk(k, g0)
    requires forall c | 0 <= c < |k.choices| :: k.choices[c].kind != Tristate
    ensures SameSettings(LoadAll(k, g0, lines, true), LoadAll(k, NoSettings(k), lines, true))
  {
    HistoryIndependentIff(k, g0, lines);
    forall c | 0 <= c < |k.choices| ensures !ModeWithoutPick(k, lines, c) {
      forall i | 0 <= i < |lines| && Modes(k, lines[i], c) ensures Picks(k, lines[i], c) {
        BoolModesPick(k, lines[i], c);
      }
    }
  }

  lemma BoolModesPick(k: Kconf, line: string, c: nat)
    requires c < |k.choices| && k.choices[c].kind != Tristate && Modes(k, line, c)
    ensures Picks(k, line, c)
  {
  }

  /**
    A tristate choice shows the dependence: a file that only sets one of its
    symbols to m keeps the selection made before the load.
   */
  lemma TristateChoiceRemembers(k: Kconf, g0: Settings, s: nat, c: nat)
    requires SettingsOk(k, g0) && s < |k.syms| && c < |k.choices|
    requires k.syms[s].kind == Tristate && k.syms[s].choice == Some(c) && k.choices[c].kind == Tristate
    requires GoodName(k.syms[s].name) && FindSym(k, k.syms[s].name, 0) == Some(s)
    requires g0.picks[c].Some?
    ensures !SameSettings(LoadAll(k, g0, [SetLine(k.syms[s].name, "m")], true),
                          LoadAll(k, NoSettings(k), [SetLine(k.syms[s].name, "m")], true))
  {
    var lines := [SetLine(k.syms[s].name, "m")];
    ParseSetLine(k.syms[s].name, "m");
    assert Modes(k, lines[0], c) && !Picks(k, lines[0], c);
    assert ModeWithoutPick(k, lines, c);
    HistoryIndependentIff(k, g0, lines);
  }
}
