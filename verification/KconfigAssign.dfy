/**
  What the user gets back.  A value that was set and accepted is the value read
  afterwards, as far as visibility, selects and ranges allow; an item without a
  user value has the value its defaults, implies and selects give it.
 */
module KconfigAssign {
  import opened Common
  import opened KconfigModel
  import opened KconfigValues
  import opened KconfigInvalidate
  import opened KconfigSettings
  import opened KconfigCache
  import opened KconfigLoad
  import opened KconfigRestore
  import opened KconfigMeaning
  import opened KconfigRun

  /** An accepted value is the user value from then on, and no other symbol changes. */
  lemma SetStores(k: Kconf, g: Settings, s: nat, value: Value)
    requires Sized(k, g) && ChoicesInTree(k) && s < |k.syms| && Accepted(k, g, s, value)
    ensures var g' := After(k, g, SetOp(s, value));
      && g'.values == g.values[s := Some(Normalized(k.syms[s].kind, value))] && g'.modes == g.modes
      && g'.picks == if k.syms[s].choice.Some? && Normalized(k.syms[s].kind, value) == Num(2)
                     then g.picks[k.syms[s].choice.value := Some(s)] else g.picks
  {
    assert g.values[s] == Some(Normalized(k.syms[s].kind, value)) ==>
             g.values == g.values[s := Some(Normalized(k.syms[s].kind, value))];
  }

  /** Unsetting a symbol removes its user value, and unsetting a choice its mode and its pick; nothing else changes. */
  lemma UnsetClears(k: Kconf, g: Settings, op: Op)
    requires Sized(k, g) && ChoicesInTree(k) && OpInTree(k, op) && (op.UnsetOp? || op.UnsetModeOp?)
    ensures var g' := After(k, g, op);
      && g'.values == (if op.UnsetOp? then g.values[op.s := None] else g.values)
      && g'.modes == (if op.UnsetModeOp? then g.modes[op.c := None] else g.modes)
      && g'.picks == (if op.UnsetModeOp? then g.picks[op.c := None] else g.picks)
  {
  }

  /** n, m and y, as numbers or as letters. */
  function LevelMeant(value: Value): Tri {
    if value == Num(2) || value == Txt("y") then 2 else if value == Num(1) || value == Txt("m") then 1 else 0
  }

  /** Settings after which s is to be read, and the table of all values under them. */
  ghost predicate ReadUnder(k: Kconf, rank: Item -> nat, top: nat, g: Settings, w: State) {
    WellFormed(k) && Ranked(k, rank, top) && PicksOk(k, g) && w == Values(k, rank, top, g)
  }

  /** A bool or tristate symbol outside choices that was set and is visible reads back as set, within its bounds. */
  lemma SetThenReadTri(k: Kconf, rank: Item -> nat, top: nat, g: Settings, s: nat, value: Value, g': Settings, w: State)
    requires SettingsOk(k, g) && s < |k.syms| && BoolLike(k.syms[s].kind) && k.syms[s].choice.None?
    requires Accepted(k, g, s, value) && g' == After(k, g, SetOp(s, value)) && ReadUnder(k, rank, top, g', w)
    requires w.syms[s].vis != Some(0)
    ensures var u, rev := LevelMeant(value), Val(k, w, k.syms[s].revDep);
      && Expected(k, g', w, ReadTri(s)) ==
         Some(Some(Level(Promoted(Max(rev, Min(u, w.syms[s].vis.value)), NeverM(k, w, s)))))
      && (NoModules(k) ==> Expected(k, g', w, ReadTri(s)) == Some(Some(Level(if u != 0 || rev != 0 then 2 else 0))))
  {
    SetStores(k, g, s, value);
    AcceptedIsValid(k, g);
    assert w.syms[s].user == g'.values[s] == Some(Num(LevelMeant(value)));
    UserValue(k, w, s, LevelMeant(value));
  }

  /** Unset, it reads as the largest of its first active default, its implies and its selects. */
  lemma UnsetThenReadTri(k: Kconf, rank: Item -> nat, top: nat, g: Settings, s: nat, g': Settings, w: State, i: nat)
    requires SettingsOk(k, g) && s < |k.syms| && BoolLike(k.syms[s].kind) && k.syms[s].choice.None?
    requires g' == After(k, g, UnsetOp(s)) && ReadUnder(k, rank, top, g', w) && FirstOn(k, w, k.syms[s].defaults, i)
    ensures var base := Max(Val(k, w, k.syms[s].revDep), Max(Implied(k, w, s), DefaultLevel(k, w, k.syms[s].defaults, i)));
      && Expected(k, g', w, ReadTri(s)) == Some(Some(Level(Promoted(base, NeverM(k, w, s)))))
      && (NoModules(k) ==> Expected(k, g', w, ReadTri(s)) == Some(Some(Level(if base != 0 then 2 else 0))))
  {
    assert w.syms[s].user == g'.values[s] == None;
    DefaultValue(k, w, s, i);
  }

  /** A visible string reads back as set; so does a number that the first active range admits. */
  lemma SetThenReadStr(
    k: Kconf, rank: Item -> nat, top: nat, g: Settings, s: nat, text: string, g': Settings, w: State, i: nat, j: nat)
    requires SettingsOk(k, g) && s < |k.syms| && !BoolLike(k.syms[s].kind) && k.syms[s].kind != Unknown
    requires Accepted(k, g, s, Txt(text)) && g' == After(k, g, SetOp(s, Txt(text))) && ReadUnder(k, rank, top, g', w)
    requires FirstOn(k, w, k.syms[s].defaults, i) && FirstOn(k, w, k.syms[s].ranges, j)
    requires w.syms[s].vis != Some(0)
    requires k.syms[s].kind != Str ==> text != "" && Within(NumberOf(k, k.syms[s].kind, Some(text)), RangeAt(k, w, s, j))
    ensures Expected(k, g', w, ReadStr(s)) == Some(Some(Content(text)))
  {
    SetStores(k, g, s, Txt(text));
    assert w.syms[s].user == g'.values[s] == Some(Txt(text));
    if k.syms[s].kind == Str { UserText(k, w, s, text, i, j); } else { UserNumber(k, w, s, i, j); }
  }

  /** A symbol of a choice in y mode that was set to y and is visible is the selection, and y. */
  lemma SetThenReadSelection(
    k: Kconf, rank: Item -> nat, top: nat, g: Settings, s: nat, value: Value, c: nat, g': Settings, w: State)
    requires SettingsOk(k, g) && s < |k.syms| && k.syms[s].choice == Some(c) && BoolLike(k.syms[s].kind)
    requires LevelMeant(value) == 2 && Accepted(k, g, s, value)
    requires g' == After(k, g, SetOp(s, value)) && ReadUnder(k, rank, top, g', w)
    requires w.syms[s].vis == Some(2) && ModeOf(k, w, c) == Some(2)
    ensures c < |k.choices| && Expected(k, g', w, ReadSelection(c)) == Some(Some(Selected(Some(s))))
    ensures Expected(k, g', w, ReadTri(s)) == Some(Some(Level(2)))
  {
    SetStores(k, g, s, value);
    assert SymWellFormed(k, k.syms[s]);
    assert w.choices[c].picked == g'.picks[c] == Some(s);
    PickSelected(k, w, c);
    MemberMeaning(k, w, s);
  }

  /** The mode that was set is the mode of a visible choice, within its bounds. */
  lemma SetThenReadMode(k: Kconf, rank: Item -> nat, top: nat, g: Settings, c: nat, mode: Tri, g': Settings, w: State)
    requires SettingsOk(k, g) && c < |k.choices| && BoolLike(k.choices[c].kind) && ModeAccepted(k, g, c, mode)
    requires g' == After(k, g, SetModeOp(c, mode)) && ReadUnder(k, rank, top, g', w) && w.choices[c].vis != Some(0)
    ensures Expected(k, g', w, ReadMode(c)) == Some(Some(Level(
      if mode == 0 && k.choices[c].optional then 0
      else if NoM(k, w, k.choices[c].kind) then 2
      else if mode == 2 then w.choices[c].vis.value else 1)))
  {
    assert w.choices[c].user == g'.modes[c] == Some(mode);
    ModeMeaning(k, w, c);
  }

  /** The live configuration: setting a symbol and reading it at once. */
  method SetAndReadTri(kc: Kconfig, s: nat, value: Value) returns (ok: bool, v: Tri)
    requires kc.Valid() && Linked(kc.k, kc.Now()) && ChoicesInTree(kc.k) && SettingsOk(kc.k, SettingsOf(kc.Now()))
    requires s < |kc.k.syms| && BoolLike(kc.k.syms[s].kind) && kc.k.syms[s].choice.None?
    modifies kc.syms, kc.choices
    ensures kc.Valid() && Linked(kc.k, kc.Now())
    ensures var k, g := kc.k, SettingsOf(old(kc.Now()));
      var g' := After(k, g, SetOp(s, value));
      && SettingsOf(kc.Now()) == g' && PicksOk(k, g')
      && (ok <==> ValidFor(k, k.syms[s].kind, Normalized(k.syms[s].kind, value)))
      && var w := Values(k, kc.rank, kc.top, g');
        ok && w.syms[s].vis != Some(0) ==>
          && v == Promoted(Max(Val(k, w, k.syms[s].revDep), Min(LevelMeant(value), w.syms[s].vis.value)), NeverM(k, w, s))
          && (NoModules(k) ==> v == if LevelMeant(value) != 0 || Val(k, w, k.syms[s].revDep) != 0 then 2 else 0)
  {
    ghost var k, g := kc.k, SettingsOf(kc.Now());
    var flag := RunOne(kc, SetOp(s, value));
    ghost var g' := SettingsOf(kc.Now());
    ok := flag.value.accepted;
    var level := RunOne(kc, ReadTri(s));
    v := level.value.t;
    AcceptedIsValid(k, g);
    ghost var w := Values(k, kc.rank, kc.top, g');
    if ok && w.syms[s].vis != Some(0) { SetThenReadTri(k, kc.rank, kc.top, g, s, value, g', w); }
  }
}
