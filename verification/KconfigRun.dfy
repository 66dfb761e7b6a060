/**
  Whole runs.  `Values` computes every value from the settings alone, without a
  cache.  Whatever sequence of sets, unsets, loads and reads a client makes, each
  read of the incremental evaluator returns the value in `Values` for the settings
  in force at that moment, and each setter tells whether the value was accepted.
 */
module KconfigRun {
  import opened Common
  import opened KconfigModel
  import opened KconfigReads
  import opened KconfigValues
  import opened KconfigFresh
  import opened KconfigCaching
  import opened KconfigInvalidate
  import opened KconfigSettings
  import opened KconfigCache
  import opened KconfigLoad

  /** A state with the given settings and nothing else. */
  function StateOf(g: Settings): State
    requires |g.values| == |g.symSet| && |g.modes| == |g.picks| == |g.choiceSet|
  {
    State(seq(|g.values|, i requires 0 <= i < |g.values| => NewSymState.(user := g.values[i])),
          seq(|g.modes|, i requires 0 <= i < |g.modes| => NewChoiceState.(user := g.modes[i], picked := g.picks[i])))
  }

  ghost predicate PicksOk(k: Kconf, g: Settings) {
    && Sized(k, g)
    && forall c | 0 <= c < |k.choices| && g.picks[c].Some? :: g.picks[c].value in k.choices[c].syms
  }

  /** w holds every value under the settings g. */
  ghost predicate HoldsValues(k: Kconf, g: Settings, w: State)
    requires Sized(k, g)
  {
    Solves(k, w) && SameUser(StateOf(g), w)
  }

  /** An uncached computation finds such a table, by a recursion of bounded depth. */
  lemma UncachedValues(k: Kconf, rank: Item -> nat, top: nat, g: Settings)
    requires WellFormed(k) && Ranked(k, rank, top) && PicksOk(k, g)
    ensures HoldsValues(k, g, Fresh(k, StateOf(g), 4 * top))
  {
    FreshSolves(k, rank, top, StateOf(g));
  }

  /** The values under given settings; they do not depend on the ranks. */
  ghost function Values(k: Kconf, rank: Item -> nat, top: nat, g: Settings): (w: State)
    requires WellFormed(k) && Ranked(k, rank, top) && PicksOk(k, g)
    ensures HoldsValues(k, g, w)
  {
    UncachedValues(k, rank, top, g);
    var w :| HoldsValues(k, g, w);
    w
  }

  /** Every entry of a justified cache is the uncached value for the cache's settings. */
  lemma CacheIsValues(k: Kconf, rank: Item -> nat, top: nat, w: State)
    requires WellFormed(k) && Ranked(k, rank, top) && Justified(k, w) && PicksMembers(k, w)
    ensures PicksOk(k, SettingsOf(w))
    ensures Agrees(k, w, Values(k, rank, top, SettingsOf(w)))
  {
    var g := SettingsOf(w);
    assert SameUser(w, StateOf(g));
    JustifiedAgrees(k, rank, top, w, Values(k, rank, top, g));
  }

  datatype Op =
    | SetOp(s: nat, value: Value)
    | UnsetOp(s: nat)
    | SetModeOp(c: nat, mode: Tri)
    | UnsetModeOp(c: nat)
    | LoadOp(lines: seq<string>, replace: bool)
    | ReadTri(s: nat)
    | ReadStr(s: nat)
    | ReadVis(s: nat)
    | ReadAssignable(s: nat)
    | ReadSelection(c: nat)
    | ReadMode(c: nat)
    | ReadChoiceVis(c: nat)
    | ReadChoiceAssignable(c: nat)

  datatype Reading = Flag(accepted: bool) | Level(t: Tri) | Content(text: string) | Levels(ts: seq<Tri>) | Selected(sel: Option<nat>)

  predicate OpInTree(k: Kconf, op: Op) {
    match op
    case SetOp(s, _) => s < |k.syms|
    case UnsetOp(s) => s < |k.syms|
    case SetModeOp(c, _) => c < |k.choices|
    case UnsetModeOp(c) => c < |k.choices|
    case ReadTri(s) => s < |k.syms|
    case ReadStr(s) => s < |k.syms|
    case ReadVis(s) => s < |k.syms|
    case ReadAssignable(s) => s < |k.syms|
    case ReadSelection(c) => c < |k.choices|
    case ReadMode(c) => c < |k.choices|
    case ReadChoiceVis(c) => c < |k.choices|
    case ReadChoiceAssignable(c) => c < |k.choices|
    case LoadOp(_, _) => true
  }

  /** The effect of one operation on the settings. */
  ghost function After(k: Kconf, g: Settings, op: Op): (r: Settings)
    requires Sized(k, g) && OpInTree(k, op) && ChoicesInTree(k)
    ensures Sized(k, r)
  {
    match op
    case SetOp(s, value) => SetSym(k, g, s, value)
    case UnsetOp(s) => UnsetSym(k, g, s)
    case SetModeOp(c, mode) => SetMode(k, g, c, mode)
    case UnsetModeOp(c) => UnsetChoice(k, g, c)
    case LoadOp(lines, replace) => LoadAll(k, g, lines, replace)
    case _ => g
  }

  /** What one operation returns under the settings g, of which w holds all values; None for operations that return nothing. */
  ghost function Expected(k: Kconf, g: Settings, w: State, op: Op): Option<Option<Reading>>
    requires Fits(k, w) && Sized(k, g) && OpInTree(k, op)
  {
    match op
    case SetOp(s, value) => Some(Some(Flag(Accepted(k, g, s, value))))
    case SetModeOp(c, mode) => Some(Some(Flag(ModeAccepted(k, g, c, mode))))
    case ReadTri(s) => (var t :- TriOf(k, w, Sym(s)); Some(Some(Level(t))))
    case ReadStr(s) => (var t :- StrOf(k, w, Sym(s)); Some(Some(Content(t))))
    case ReadVis(s) => (var t :- w.syms[s].vis; Some(Some(Level(t))))
    case ReadAssignable(s) => (var t :- w.syms[s].asn; Some(Some(Levels(t))))
    case ReadSelection(c) => (var t :- w.choices[c].sel; Some(Some(Selected(t))))
    case ReadMode(c) => (var t :- ModeOf(k, w, c); Some(Some(Level(t))))
    case ReadChoiceVis(c) => (var t :- w.choices[c].vis; Some(Some(Level(t))))
    case ReadChoiceAssignable(c) => (var t :- w.choices[c].asn; Some(Some(Levels(t))))
    case _ => Some(None)
  }

  predicate Reads(op: Op) {
    !(op.SetOp? || op.UnsetOp? || op.SetModeOp? || op.UnsetModeOp? || op.LoadOp?)
  }

  method RunOne(kc: Kconfig, op: Op) returns (r: Option<Reading>)
    requires kc.Valid() && Linked(kc.k, kc.Now()) && OpInTree(kc.k, op)
    modifies kc.syms, kc.choices
    ensures kc.Valid() && Linked(kc.k, kc.Now())
    ensures ChoicesInTree(kc.k) && SettingsOf(kc.Now()) == After(kc.k, SettingsOf(old(kc.Now())), op)
    ensures RightReading(kc.k, kc.rank, kc.top, SettingsOf(old(kc.Now())), op, r)
  {
    ghost var k, w := kc.k, kc.Now();
    assert forall s | 0 <= s < |k.syms| :: SymWellFormed(k, k.syms[s]);
    SettingsInTree(k, kc.rank, kc.top, w);
    if Reads(op) {
      r := ReadOne(kc, op);
    } else {
      r := ChangeOne(kc, op);
    }
  }

  lemma SettingsInTree(k: Kconf, rank: Item -> nat, top: nat, w: State)
    requires WellFormed(k) && Ranked(k, rank, top) && Justified(k, w) && PicksMembers(k, w)
    ensures PicksOk(k, SettingsOf(w))
  {
  }

  /** A set, an unset or a load. */
  method ChangeOne(kc: Kconfig, op: Op) returns (r: Option<Reading>)
    requires kc.Valid() && Linked(kc.k, kc.Now()) && OpInTree(kc.k, op) && !Reads(op) && ChoicesInTree(kc.k)
    modifies kc.syms, kc.choices
    ensures kc.Valid() && Linked(kc.k, kc.Now())
    ensures SettingsOf(kc.Now()) == After(kc.k, SettingsOf(old(kc.Now())), op)
    ensures forall w | Fits(kc.k, w) :: Expected(kc.k, SettingsOf(old(kc.Now())), w, op) == Some(r)
  {
    r := None;
    match op {
      case SetOp(s, value) =>
        var ok := kc.SetValue(s, value);
        r := Some(Flag(ok));
      case UnsetOp(s) =>
        kc.UnsetValue(s);
      case SetModeOp(c, mode) =>
        var ok := kc.SetChoiceValue(c, mode);
        r := Some(Flag(ok));
      case UnsetModeOp(c) =>
        kc.UnsetChoiceValue(c);
      case LoadOp(lines, replace) =>
        LoadConfig(kc, lines, replace);
      case _ =>
    }
  }

  method ReadOne(kc: Kconfig, op: Op) returns (r: Option<Reading>)
    requires kc.Valid() && Linked(kc.k, kc.Now()) && OpInTree(kc.k, op) && Reads(op)
    modifies kc.syms, kc.choices
    ensures kc.Valid() && Linked(kc.k, kc.Now()) && SettingsOf(kc.Now()) == SettingsOf(old(kc.Now()))
    ensures RightReading(kc.k, kc.rank, kc.top, SettingsOf(old(kc.Now())), op, r)
  {
    ghost var k, w := kc.k, kc.Now();
    r := None;
    match op {
      case ReadTri(s) =>
        var v := kc.TriValue(s);
        r := Some(Level(v));
      case ReadStr(s) =>
        var v := kc.StrValue(s);
        r := Some(Content(v));
      case ReadVis(s) =>
        var v := kc.SymVisibility(s);
        r := Some(Level(v));
      case ReadAssignable(s) =>
        var v := kc.Assignable(s);
        r := Some(Levels(v));
      case ReadSelection(c) =>
        var v := kc.Selection(c);
        r := Some(Selected(v));
      case ReadMode(c) =>
        var v := kc.ModeValue(c);
        r := Some(Level(v));
      case ReadChoiceVis(c) =>
        var v := kc.ChoiceVisibility(c);
        r := Some(Level(v));
      case ReadChoiceAssignable(c) =>
        var v := kc.ChoiceAssignable(c);
        r := Some(Levels(v));
      case _ =>
    }
    ReadIsExpected(k, kc.rank, kc.top, w, kc.Now(), op);
    LaterLinked(k, w, kc.Now());
  }

  lemma LaterLinked(k: Kconf, w: State, w': State)
    requires Linked(k, w) && Later(k, w, w')
    ensures Linked(k, w') && SettingsOf(w') == SettingsOf(w)
  {
    forall z | InTree(k, z) ensures DependentsOf(w', z) == DependentsOf(w, z) {
    }
  }

  /** What a read finds in the cache is what is expected of it. */
  lemma ReadIsExpected(k: Kconf, rank: Item -> nat, top: nat, w: State, w': State, op: Op)
    requires WellFormed(k) && Ranked(k, rank, top) && Fits(k, w) && Later(k, w, w') && OpInTree(k, op) && Reads(op)
    ensures PicksOk(k, SettingsOf(w)) && Fits(k, w')
    ensures Expected(k, SettingsOf(w), w', op).Some? ==>
              Expected(k, SettingsOf(w), Values(k, rank, top, SettingsOf(w)), op) == Expected(k, SettingsOf(w), w', op)
  {
    CacheIsValues(k, rank, top, w');
    var v := Values(k, rank, top, SettingsOf(w'));
    assert SettingsOf(w') == SettingsOf(w);
    AgreesKeeps(k, w', v);
    match op
    case ReadTri(s) => assert SymAgrees(k, w', v, s);
    case ReadStr(s) => assert SymAgrees(k, w', v, s);
    case ReadVis(s) => assert SymAgrees(k, w', v, s);
    case ReadAssignable(s) => assert SymAgrees(k, w', v, s);
    case ReadSelection(c) => assert ChoiceAgrees(w', v, c);
    case ReadMode(c) => assert KeepsItem(k, w', v, IChoice(c));
    case ReadChoiceVis(c) => assert ChoiceAgrees(w', v, c);
    case ReadChoiceAssignable(c) => assert ChoiceAgrees(w', v, c);
    case _ =>
  }

  /** The settings after the first n operations of a run. */
  ghost function AfterAll(k: Kconf, g: Settings, ops: seq<Op>, n: nat): (r: Settings)
    requires Sized(k, g) && ChoicesInTree(k) && n <= |ops|
    requires forall i | 0 <= i < |ops| :: OpInTree(k, ops[i])
    ensures Sized(k, r)
  {
    if n == 0 then g else After(k, AfterAll(k, g, ops, n - 1), ops[n - 1])
  }

  lemma AfterNext(k: Kconf, g: Settings, ops: seq<Op>, n: nat, h: Settings)
    requires Sized(k, g) && ChoicesInTree(k) && n < |ops|
    requires forall i | 0 <= i < |ops| :: OpInTree(k, ops[i])
    requires h == AfterAll(k, g, ops, n)
    ensures AfterAll(k, g, ops, n + 1) == After(k, h, ops[n])
  {
  }

  /** A reading is the value computed without a cache. */
  ghost predicate RightReading(k: Kconf, rank: Item -> nat, top: nat, g: Settings, op: Op, r: Option<Reading>)
    requires WellFormed(k) && Ranked(k, rank, top) && OpInTree(k, op)
  {
    PicksOk(k, g) && Expected(k, g, Values(k, rank, top, g), op) == Some(r)
  }

  /** The first n readings of a run are right. */
  ghost predicate RightUpTo(k: Kconf, rank: Item -> nat, top: nat, g: Settings, ops: seq<Op>, rs: seq<Option<Reading>>, n: nat)
    requires WellFormed(k) && Ranked(k, rank, top) && Sized(k, g) && ChoicesInTree(k)
    requires n <= |ops| && n <= |rs|
    requires forall i | 0 <= i < |ops| :: OpInTree(k, ops[i])
  {
    forall i | 0 <= i < n :: RightReading(k, rank, top, AfterAll(k, g, ops, i), ops[i], rs[i])
  }

  lemma RightNext(k: Kconf, rank: Item -> nat, top: nat, g: Settings, ops: seq<Op>, rs: seq<Option<Reading>>,
                  r: Option<Reading>, n: nat)
    requires WellFormed(k) && Ranked(k, rank, top) && Sized(k, g) && ChoicesInTree(k)
    requires n < |ops| && n == |rs|
    requires forall i | 0 <= i < |ops| :: OpInTree(k, ops[i])
    requires RightUpTo(k, rank, top, g, ops, rs, n)
    requires RightReading(k, rank, top, AfterAll(k, g, ops, n), ops[n], r)
    ensures RightUpTo(k, rank, top, g, ops, rs + [r], n + 1)
  {
    forall i | 0 <= i < n + 1
      ensures RightReading(k, rank, top, AfterAll(k, g, ops, i), ops[i], (rs + [r])[i])
    {
      if i < n { assert RightReading(k, rank, top, AfterAll(k, g, ops, i), ops[i], rs[i]); }
    }
  }

  /** Cache coherence over every run. */
  method Run(kc: Kconfig, ops: seq<Op>) returns (readings: seq<Option<Reading>>)
    requires kc.Valid() && Linked(kc.k, kc.Now())
    requires forall i | 0 <= i < |ops| :: OpInTree(kc.k, ops[i])
    modifies kc.syms, kc.choices
    ensures kc.Valid() && Linked(kc.k, kc.Now()) && ChoicesInTree(kc.k)
    ensures SettingsOf(kc.Now()) == AfterAll(kc.k, SettingsOf(old(kc.Now())), ops, |ops|)
    ensures |readings| == |ops|
    ensures RightUpTo(kc.k, kc.rank, kc.top, SettingsOf(old(kc.Now())), ops, readings, |ops|)
  {
    ghost var k, g := kc.k, SettingsOf(kc.Now());
    assert forall s | 0 <= s < |k.syms| :: SymWellFormed(k, k.syms[s]);
    readings := [];
    for n := 0 to |ops|
      invariant kc.Valid() && Linked(k, kc.Now())
      invariant |readings| == n
      invariant SettingsOf(kc.Now()) == AfterAll(k, g, ops, n)
      invariant RightUpTo(k, kc.rank, kc.top, g, ops, readings, n)
    {
      ghost var h := AfterAll(k, g, ops, n);
      var r := RunOne(kc, ops[n]);
      AfterNext(k, g, ops, n, h);
      RightNext(k, kc.rank, kc.top, g, ops, readings, r, n);
      readings := readings + [r];
    }
  }
}
