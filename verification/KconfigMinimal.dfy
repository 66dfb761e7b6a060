/**
  What the minimal file holds: exactly the symbols whose values would not come
  back without it.
 */
module KconfigMinimal {
  import opened Common
  import opened KconfigModel
  import opened KconfigReads
  import opened KconfigValues
  import opened KconfigFresh
  import opened KconfigChoices
  import opened KconfigRestore
  import opened KconfigSave
  import opened KconfigRoundTrip
  import opened KconfigMeaning
  import opened KconfigChange

  /** w' holds all values after the user value of symbol s has been removed. */
  ghost predicate AfterUnset(k: Kconf, rank: Item -> nat, top: nat, w: State, w': State, s: nat) {
    && Table(k, rank, top, w) && MinReady(k, w) && Complete(k, w') && s < |k.syms| && k.syms[s].choice.None?
    && SameOutside(k, w, w', {ISym(s)}) && w'.syms[s].user.None?
  }

  /** The rules of s read the same as before, except its user value. */
  lemma UnsetKeeps(k: Kconf, rank: Item -> nat, top: nat, w: State, w': State, s: nat)
    requires AfterUnset(k, rank, top, w, w', s)
    ensures KeepsSym(k, w, w', k.syms[s]) && KeepsSym(k, Without(w, s), w', k.syms[s])
    ensures SymFull(w.syms[s]) && SymFull(w'.syms[s]) && w'.syms[s].vis == w.syms[s].vis
    ensures SymJustified(k, w, s) && SymJustified(k, w', s)
  {
    assert ISym(s) in FromRank(k, rank, rank(ISym(s)));
    BelowKept(k, rank, top, w, w', rank(ISym(s)));
    assert SymRanked(k, rank, s) && SymWellFormed(k, k.syms[s]);
    WithoutKeeps(k, w, w', s);
    assert SymJustified(k, w, s) && SymJustified(k, w', s) && SymFull(w.syms[s]) && SymFull(w'.syms[s]);
    SymVisKept(k, w, w', s);
  }

  lemma UnsetTri(k: Kconf, rank: Item -> nat, top: nat, w: State, w': State, s: nat)
    requires AfterUnset(k, rank, top, w, w', s) && BoolLike(k.syms[s].kind)
    ensures w.syms[s].vis == Some(0) ==> w'.syms[s].tri == w.syms[s].tri
    ensures SymTri(k, Without(w, s), s).Some? && w'.syms[s].tri == Some(SymTri(k, Without(w, s), s).value.0)
  {
    UnsetKeeps(k, rank, top, w, w', s);
    TableHas(k, rank, top, w, s);
    WithoutHas(k, w, s);
    SymTriHas(k, Without(w, s), s);
    SymTriKept(k, Without(w, s), w', s);
    if w.syms[s].vis == Some(0) { SymTriKept(k, w, w', s); }
  }

  lemma KeptPlainIs(k: Kconf, rank: Item -> nat, top: nat, w: State, s: nat)
    requires Table(k, rank, top, w) && MinReady(k, w) && s < |k.syms| && k.syms[s].choice.None? && BoolLike(k.syms[s].kind)
    ensures s in MinSyms(k, w) <==>
      && SymbolLine(k, w, s).Some? && Fixed(k, w, s) == Some(false)
      && DefaultName(k, w, s) != Some(TriName(ValueIn(w, s)))
    ensures w.syms[s].vis == Some(0) ==> Fixed(k, w, s) == Some(true)
    ensures w.syms[s].vis != Some(0) ==> SymbolLine(k, w, s).Some?
  {
    assert SymFull(w.syms[s]) && SymJustified(k, w, s);
    DefaultNameHas(k, rank, top, w, s);
    if w.syms[s].vis != Some(0) && SymbolLine(k, w, s).None? { VisibleIsWritten(k, rank, top, w, s); }
  }

  lemma TriNameApart(a: Tri, b: Tri)
    ensures TriName(a) == TriName(b) <==> a == b
  {
    assert TriName(a)[0] == (if a == 0 then 'n' else if a == 1 then 'm' else 'y');
    assert TriName(b)[0] == (if b == 0 then 'n' else if b == 1 then 'm' else 'y');
  }

  /** The minimal file has a line for a bool or tristate symbol outside choices exactly if it would have another value without one. */
  lemma KeptPlain(k: Kconf, rank: Item -> nat, top: nat, w: State, w': State, s: nat)
    requires AfterUnset(k, rank, top, w, w', s) && BoolLike(k.syms[s].kind)
    ensures s in MinSyms(k, w) <==> w'.syms[s].tri != w.syms[s].tri
  {
    UnsetTri(k, rank, top, w, w', s);
    KeptPlainIs(k, rank, top, w, s);
    assert SymFull(w.syms[s]);
    if w.syms[s].vis != Some(0) {
      DefaultNameIsValue(k, rank, top, w, s);
      TriNameApart(SymTri(k, Without(w, s), s).value.0, ValueIn(w, s));
      if Fixed(k, w, s) == Some(true) { FixedIsValue(k, rank, top, w, s); }
      DefaultNameHas(k, rank, top, w, s);
    }
  }

  lemma UnsetStr(k: Kconf, rank: Item -> nat, top: nat, w: State, w': State, s: nat)
    requires AfterUnset(k, rank, top, w, w', s) && !BoolLike(k.syms[s].kind) && k.syms[s].kind != Unknown
    ensures w.syms[s].vis == Some(0) || w.syms[s].user.None? ==> w'.syms[s].str == w.syms[s].str
    ensures SymStr(k, Without(w, s), s).Some? && w'.syms[s].str == Some(SymStr(k, Without(w, s), s).value.0)
  {
    UnsetKeeps(k, rank, top, w, w', s);
    TableHas(k, rank, top, w, s);
    WithoutHas(k, w, s);
    assert SymWellFormed(k, k.syms[s]);
    SymStrHas(k, Without(w, s), s);
    SymStrKept(k, Without(w, s), w', s);
    if w.syms[s].vis == Some(0) || w.syms[s].user.None? { SymStrKept(k, w, w', s); }
  }

  /** Keeping a string or number comes down to comparing it with its default. */
  lemma KeptTextIs(k: Kconf, rank: Item -> nat, top: nat, w: State, s: nat)
    requires Table(k, rank, top, w) && MinReady(k, w) && s < |k.syms| && k.syms[s].choice.None?
    requires !BoolLike(k.syms[s].kind) && k.syms[s].kind != Unknown
    ensures s in MinSyms(k, w) <==>
      w.syms[s].vis != Some(0) && SymbolLine(k, w, s).Some? && DefaultName(k, w, s) != Some(StringIn(w, s))
  {
    DefaultNameHas(k, rank, top, w, s);
    assert SymFull(w.syms[s]);
    assert ExprVal(k, w, k.syms[s].revDep) == Some(0);
  }

  /** A string is in the minimal file exactly if it would be another one without its line. */
  lemma KeptString(k: Kconf, rank: Item -> nat, top: nat, w: State, w': State, s: nat, i: nat, j: nat)
    requires AfterUnset(k, rank, top, w, w', s) && k.syms[s].kind == Str
    requires FirstOn(k, w', k.syms[s].defaults, i) && FirstOn(k, w', k.syms[s].ranges, j)
    ensures s in MinSyms(k, w) <==> w'.syms[s].str != w.syms[s].str
  {
    UnsetStr(k, rank, top, w, w', s);
    KeptTextIs(k, rank, top, w, s);
    assert SymFull(w.syms[s]) && SymFull(w'.syms[s]);
    if DefaultName(k, w, s) == Some(StringIn(w, s)) { DefaultStrIsValue(k, rank, top, w, s); }
    if w.syms[s].vis != Some(0) && SymbolLine(k, w, s).None? { VisibleIsWritten(k, rank, top, w, s); }
    UnsetDefault(k, rank, top, w, w', s, i, j);
  }

  lemma UnsetDefault(k: Kconf, rank: Item -> nat, top: nat, w: State, w': State, s: nat, i: nat, j: nat)
    requires AfterUnset(k, rank, top, w, w', s) && !BoolLike(k.syms[s].kind) && k.syms[s].kind != Unknown
    requires FirstOn(k, w', k.syms[s].defaults, i) && FirstOn(k, w', k.syms[s].ranges, j)
    ensures DefaultName(k, w, s) == Some(DefaultText(k, w', k.syms[s].defaults, i))
    ensures k.syms[s].kind == Str ==> w'.syms[s].str == Some(DefaultText(k, w', k.syms[s].defaults, i))
  {
    UnsetKeeps(k, rank, top, w, w', s);
    TableHas(k, rank, top, w, s);
    assert SymWellFormed(k, k.syms[s]);
    DefaultStrHas(k, w, s);
    DefaultStrKept(k, w, w', k.syms[s]);
    TextInputs(k, w', s, i, j);
    if k.syms[s].kind == Str { DefaultTextValue(k, w', s, i, j); }
  }

  /** A string or number is in the minimal file exactly if it is visible, may be written, and is not written like its default. */
  lemma KeptUnlikeDefault(k: Kconf, rank: Item -> nat, top: nat, w: State, w': State, s: nat, i: nat, j: nat)
    requires AfterUnset(k, rank, top, w, w', s) && !BoolLike(k.syms[s].kind) && k.syms[s].kind != Unknown
    requires FirstOn(k, w', k.syms[s].defaults, i) && FirstOn(k, w', k.syms[s].ranges, j)
    ensures s in MinSyms(k, w) <==>
      && w.syms[s].vis != Some(0) && !k.syms[s].unwritten
      && w.syms[s].str != Some(DefaultText(k, w', k.syms[s].defaults, i))
  {
    KeptTextIs(k, rank, top, w, s);
    assert SymFull(w.syms[s]);
    if w.syms[s].vis != Some(0) && SymbolLine(k, w, s).None? { VisibleIsWritten(k, rank, top, w, s); }
    if k.syms[s].unwritten { UnwrittenHasNoLine(k, rank, top, w, s); }
    UnsetDefault(k, rank, top, w, w', s, i, j);
  }

  lemma UnwrittenHasNoLine(k: Kconf, rank: Item -> nat, top: nat, w: State, s: nat)
    requires Table(k, rank, top, w) && s < |k.syms| && k.syms[s].unwritten && !BoolLike(k.syms[s].kind)
    ensures SymbolLine(k, w, s).None?
  {
    assert SymJustified(k, w, s) && SymFull(w.syms[s]);
  }

  /**
    A number that would be another one without its line is in the minimal file, and
    the converse holds where the default is in range.  A default out of range is
    compared as it is written, before it is pulled into the range.
   */
  lemma KeptNumber(k: Kconf, rank: Item -> nat, top: nat, w: State, w': State, s: nat, i: nat, j: nat)
    requires AfterUnset(k, rank, top, w, w', s) && (k.syms[s].kind == Int || k.syms[s].kind == Hex)
    requires FirstOn(k, w', k.syms[s].defaults, i) && FirstOn(k, w', k.syms[s].ranges, j)
    ensures w'.syms[s].str != w.syms[s].str ==> s in MinSyms(k, w)
    ensures var d, text := k.syms[s], DefaultText(k, w', k.syms[s].defaults, i);
      Within(NumberOf(k, d.kind, if i < |d.defaults| then Some(text) else None), RangeAt(k, w', s, j)) ==>
        (s in MinSyms(k, w) <==> w'.syms[s].str != w.syms[s].str)
  {
    UnsetStr(k, rank, top, w, w', s);
    KeptUnlikeDefault(k, rank, top, w, w', s, i, j);
    assert SymFull(w.syms[s]) && SymFull(w'.syms[s]);
    UnsetDefault(k, rank, top, w, w', s, i, j);
    if DefaultName(k, w, s) == Some(StringIn(w, s)) { DefaultStrIsValue(k, rank, top, w, s); }
    DefaultNumber(k, w', s, i, j);
  }

  // ---- Symbols of choices ----

  ghost predicate FirstApplies(k: Kconf, w: State, ds: seq<Guarded<nat>>, i: nat) {
    Applies(k, w, ds, i) && forall j | 0 <= j < i :: !Applies(k, w, ds, j)
  }

  ghost predicate NoneApplies(k: Kconf, w: State, ds: seq<Guarded<nat>>) {
    forall i: nat :: !Applies(k, w, ds, i)
  }

  ghost predicate FirstShown(w: State, ss: seq<nat>, i: nat) {
    i < |ss| && Shown(w, ss[i]) && forall j | 0 <= j < i :: !Shown(w, ss[j])
  }

  /** x is the symbol a choice selects by default: that of the first default that applies, else the first visible one. */
  ghost predicate DefaultPick(k: Kconf, w: State, c: nat, x: Option<nat>)
    requires c < |k.choices|
  {
    var ds, ss := k.choices[c].defaults, k.choices[c].syms;
    || (exists i: nat :: FirstApplies(k, w, ds, i) && x == Some(ds[i].item))
    || (NoneApplies(k, w, ds) && exists j: nat :: FirstShown(w, ss, j) && x == Some(ss[j]))
    || (NoneApplies(k, w, ds) && (forall j | 0 <= j < |ss| :: !Shown(w, ss[j])) && x == None)
  }

  lemma DefaultPickIs(k: Kconf, rank: Item -> nat, top: nat, w: State, c: nat, x: Option<nat>)
    requires Table(k, rank, top, w) && c < |k.choices| && DefaultPick(k, w, c, x)
    ensures SelFromDefaults(k, w, c) == Some(x)
  {
    SelDefaultsHas(k, rank, top, w, c);
    var ds, ss := k.choices[c].defaults, k.choices[c].syms;
    if i: nat :| FirstApplies(k, w, ds, i) && x == Some(ds[i].item) {
      DefaultSelFirst(k, w, ds, 0, i);
    } else {
      DefaultSelFirst(k, w, ds, 0, |ds|);
      FirstShownIs(w, ss, x);
    }
  }

  lemma FirstShownIs(w: State, ss: seq<nat>, x: Option<nat>)
    requires FirstVisible(w, ss, 0).Some?
    requires (exists j: nat :: FirstShown(w, ss, j) && x == Some(ss[j])) || ((forall j | 0 <= j < |ss| :: !Shown(w, ss[j])) && x == None)
    ensures FirstVisible(w, ss, 0) == Some(x)
  {
    if j: nat :| FirstShown(w, ss, j) && x == Some(ss[j]) {
      FirstVisibleFirst(w, ss, 0, j);
    } else {
      FirstVisibleFirst(w, ss, 0, |ss|);
    }
  }

  /**
    The symbol of a choice has a line exactly if it is y, unless it is a bool symbol
    that a choice which is not optional selects by default.
   */
  lemma KeptMember(k: Kconf, rank: Item -> nat, top: nat, w: State, s: nat, c: nat, x: Option<nat>)
    requires Table(k, rank, top, w) && s < |k.syms| && k.syms[s].choice == Some(c) && BoolLike(k.syms[s].kind)
    requires c < |k.choices| && DefaultPick(k, w, c, x)
    ensures s in MinSyms(k, w) <==>
      w.syms[s].tri == Some(2) && (k.choices[c].optional || k.syms[s].kind == Tristate || x != Some(s))
  {
    DefaultPickIs(k, rank, top, w, c, x);
    NoMValue(k, rank, top, w, s);
    assert SymFull(w.syms[s]) && SymJustified(k, w, s);
    DefaultNameHas(k, rank, top, w, s);
  }
}
