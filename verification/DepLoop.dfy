/**
  The dependency loop check: a depth-first search with three colours over the
  dependents of symbols, in which a choice and its symbols hang together.

  A reported loop is always real.  The converse fails: while a choice is being
  searched, its finished symbols already count as free of loops, so a path from a
  symbol of a choice back to an earlier symbol of the same choice goes unnoticed
  (see DepLoopMissed), unless one of the two is the symbol that the choice was
  entered by.  CheckDecides says which graphs are reported, CheckExact for which
  graphs that is the right answer.  Without such a path, passing the check yields
  an order in which every item only depends on earlier ones.
 */
module DepLoop {
  import opened Common
  import opened KconfigModel
  import opened DepSearch

  // ---- A reported loop is real ----

  /** b is visited next from a: a dependent of a, the choice of a, or a symbol of the choice a. */
  predicate Feeds(g: Graph, a: Item, b: Item) {
    match a
    case ISym(s) => s < |g.deps| && s < |g.owner| && (b in g.deps[s] || (g.owner[s].Some? && b == IChoice(g.owner[s].value)))
    case IChoice(c) => c < |g.members| && b.ISym? && b.s in g.members[c]
  }

  /** Each item on the path depends on the next one. */
  predicate PathOk(g: Graph, p: seq<Item>) {
    p != [] && forall i | 0 <= i < |p| - 1 :: Feeds(g, p[i + 1], p[i])
  }

  predicate ClosedPath(g: Graph, p: seq<Item>) {
    PathOk(g, p) && Feeds(g, p[0], p[|p| - 1])
  }

  /** Every item on the call stack except `but` reaches group b in at least one step. */
  ghost predicate StackPlus(g: Graph, m: Marks, b: Item, but: Option<nat>) {
    forall z | Colour(m, z) == 1 && !(but.Some? && z == ISym(but.value)) :: Plus(Groups(g), Group(g, z), b)
  }

  ghost predicate StackReach(g: Graph, m: Marks, b: Item) {
    forall z | Colour(m, z) == 1 :: Reach(Groups(g), Group(g, z), b)
  }

  /** The contract of a call on z: whatever it reports is a real loop that starts on the call stack. */
  ghost predicate Sound(g: Graph, m: Marks, z: Item, o: Outcome) {
    && (!o.NoLoop? ==> Cyclic(g))
    && (o.Loop? ==> PathOk(g, o.path) && o.path[|o.path| - 1] == z && Colour(m, o.path[0]) == 1)
    && (o.Raised? ==> ClosedPath(g, o.path))
  }

  /** The same, one level up: the last item is next after z. */
  ghost predicate SoundBelow(g: Graph, m: Marks, z: Item, o: Outcome) {
    && (!o.NoLoop? ==> Cyclic(g))
    && (o.Loop? ==> PathOk(g, o.path) && Feeds(g, z, o.path[|o.path| - 1]) && Colour(m, o.path[0]) == 1)
    && (o.Raised? ==> ClosedPath(g, o.path))
  }

  lemma FoundSound(g: Graph, m: Marks, z: Item, grey: Marks, o: Outcome)
    requires SoundBelow(g, grey, z, o)
    requires forall y | y != z && Colour(grey, y) == 1 :: Colour(m, y) == 1
    ensures Sound(g, m, z, Found(o, z))
  {
    if o.Loop? && o.path[0] != z {
      var p := o.path + [z];
      assert p[0] == o.path[0];
      forall i | 0 <= i < |p| - 1 ensures Feeds(g, p[i + 1], p[i]) {
        if i < |o.path| - 1 { assert Feeds(g, o.path[i + 1], o.path[i]); }
      }
    }
  }

  lemma StackStep(g: Graph, m: Marks, s: nat, i: nat)
    requires GraphOk(g) && s < |g.deps| && i < |g.deps[s]| && StackReach(g, m, Group(g, ISym(s)))
    ensures StackReach(g, m, Group(g, g.deps[s][i])) && StackPlus(g, m, Group(g, g.deps[s][i]), None)
  {
    var a, b := Group(g, ISym(s)), Group(g, g.deps[s][i]);
    assert EdgeAt(g, s, i, a, b);
    forall z | Colour(m, z) == 1 ensures Reach(Groups(g), Group(g, z), b) && Plus(Groups(g), Group(g, z), b) {
      ReachStep(Groups(g), Group(g, z), a, b);
    }
  }

  lemma {:induction false} SymSound(g: Graph, m: Marks, s: nat, ignore: bool)
    requires GraphOk(g) && Sized(g, m) && s < |g.owner|
    requires StackReach(g, m, Group(g, ISym(s)))
    requires !ignore ==> StackPlus(g, m, Group(g, ISym(s)), None)
    requires ignore && m.syms[s] == 1 ==> Plus(Groups(g), Group(g, ISym(s)), Group(g, ISym(s)))
    ensures Sound(g, m, ISym(s), VisitSym(g, m, s, ignore).1)
    decreases White(m.syms, m.choices), 0
  {
    var b := Group(g, ISym(s));
    if m.syms[s] == 0 {
      var grey := Paint(m, ISym(s), 1);
      PaintFalls(m, ISym(s), 1);
      ReachSelf(Groups(g), b);
      assert forall y | y != ISym(s) :: Colour(grey, y) == Colour(m, y);
      DepsSound(g, grey, s, 0);
      var (m1, o1) := VisitDeps(g, grey, s, 0);
      FoundSound(g, m, ISym(s), grey, o1);
      if o1.NoLoop? && g.owner[s].Some? && !ignore {
        DepsAdvances(g, grey, s, 0);
        ChoiceSound(g, m1, g.owner[s].value, Some(s));
        FoundSound(g, m, ISym(s), m1, VisitChoice(g, m1, g.owner[s].value, Some(s)).1);
      }
    } else if m.syms[s] == 1 {
      assert Colour(m, ISym(s)) == 1;
      assert Plus(Groups(g), b, b);
    }
  }

  lemma {:induction false} DepsSound(g: Graph, m: Marks, s: nat, i: nat)
    requires GraphOk(g) && Sized(g, m) && s < |g.deps| && i <= |g.deps[s]|
    requires StackReach(g, m, Group(g, ISym(s)))
    ensures SoundBelow(g, m, ISym(s), VisitDeps(g, m, s, i).1)
    decreases White(m.syms, m.choices), 2 + |g.deps[s]| - i
  {
    if i < |g.deps[s]| {
      var d := g.deps[s][i];
      assert InGraph(g, d);
      StackStep(g, m, s, i);
      var r := VisitDep(g, m, d);
      DepsNext(g, m, s, i, r);
      if d.ISym? { SymSound(g, m, d.s, false); } else { ChoiceSound(g, m, d.c, None); }
      if r.1.NoLoop? {
        DepAdvances(g, m, d);
        StackReachStays(g, m, r.0, Group(g, ISym(s)));
        DepsSound(g, r.0, s, i + 1);
        SoundBelowSame(g, r.0, m, ISym(s), VisitDeps(g, r.0, s, i + 1).1);
      } else {
        SoundAbove(g, m, d, ISym(s), r.1);
      }
    }
  }

  lemma StackReachStays(g: Graph, m: Marks, m': Marks, b: Item)
    requires StackReach(g, m, b) && Advances(m, m')
    ensures StackReach(g, m', b)
  {
  }

  lemma {:induction false} ChoiceSound(g: Graph, m: Marks, c: nat, skip: Option<nat>)
    requires GraphOk(g) && Sized(g, m) && c < |g.members|
    requires StackReach(g, m, IChoice(c)) && StackPlus(g, m, IChoice(c), skip)
    ensures Sound(g, m, IChoice(c), VisitChoice(g, m, c, skip).1)
    decreases White(m.syms, m.choices), 0
  {
    if m.choices[c] == 0 {
      var grey := Enter(m, c, skip);
      EnterFalls(m, c, skip);
      ReachSelf(Groups(g), IChoice(c));
      assert forall y | y != IChoice(c) :: Colour(grey, y) == Colour(m, y);
      assert MembersPlus(g, grey, c, skip) by {
        forall s | 0 <= s < |g.owner| && Colour(grey, ISym(s)) == 1 && g.owner[s] == Some(c) && skip != Some(s)
          ensures Plus(Groups(g), IChoice(c), IChoice(c))
        {
          assert Colour(m, ISym(s)) == 1 && Group(g, ISym(s)) == IChoice(c);
        }
      }
      MembersSound(g, grey, c, skip, 0);
      FoundSound(g, m, IChoice(c), grey, VisitMembers(g, grey, c, skip, 0).1);
    } else if m.choices[c] == 1 {
      assert Colour(m, IChoice(c)) == 1;
      assert Plus(Groups(g), IChoice(c), IChoice(c));
    }
  }

  /** If a symbol of choice c other than `skip` is on the call stack, c reaches itself. */
  ghost predicate MembersPlus(g: Graph, m: Marks, c: nat, skip: Option<nat>) {
    forall s | 0 <= s < |g.owner| && Colour(m, ISym(s)) == 1 && g.owner[s] == Some(c) && skip != Some(s) ::
      Plus(Groups(g), IChoice(c), IChoice(c))
  }

  lemma {:induction false} MembersSound(g: Graph, m: Marks, c: nat, skip: Option<nat>, i: nat)
    requires GraphOk(g) && Sized(g, m) && c < |g.members| && i <= |g.members[c]| && m.choices[c] == 1
    requires StackReach(g, m, IChoice(c))
    requires MembersPlus(g, m, c, skip)
    ensures SoundBelow(g, m, IChoice(c), VisitMembers(g, m, c, skip, i).1)
    decreases White(m.syms, m.choices), 2 + |g.members[c]| - i
  {
    if i < |g.members[c]| {
      var s := g.members[c][i];
      var at := m.(cur := m.cur[c := i]);
      MembersStep(g, m, c, skip, i, at, VisitMember(g, at, s, skip));
      MembersMoved(g, m, at, c, skip, i);
      if skip == Some(s) {
        MembersSound(g, at, c, skip, i + 1);
        SoundBelowSame(g, at, m, IChoice(c), VisitMembers(g, at, c, skip, i + 1).1);
      } else {
        MemberPlus(g, at, c, skip, s);
        SymSound(g, at, s, true);
        var (m1, o) := VisitSym(g, at, s, true);
        if o.NoLoop? {
          SymAdvances(g, at, s, true);
          MembersStay(g, at, m1, c, skip);
          MembersSound(g, m1, c, skip, i + 1);
          SoundBelowSame(g, m1, m, IChoice(c), VisitMembers(g, m1, c, skip, i + 1).1);
        } else {
          SoundAbove(g, at, ISym(s), IChoice(c), o);
          SoundBelowSame(g, at, m, IChoice(c), o);
        }
      }
    }
  }

  lemma MembersMoved(g: Graph, m: Marks, at: Marks, c: nat, skip: Option<nat>, i: nat)
    requires Sized(g, m) && c < |m.cur| && at == m.(cur := m.cur[c := i])
    requires StackReach(g, m, IChoice(c)) && MembersPlus(g, m, c, skip)
    ensures StackReach(g, at, IChoice(c)) && MembersPlus(g, at, c, skip)
    ensures forall z :: Colour(at, z) == Colour(m, z)
  {
    assert forall z :: Colour(at, z) == Colour(m, z);
  }

  lemma MemberPlus(g: Graph, m: Marks, c: nat, skip: Option<nat>, s: nat)
    requires GraphOk(g) && Sized(g, m) && c < |g.members| && s in g.members[c] && skip != Some(s) && MembersPlus(g, m, c, skip)
    ensures s < |g.owner| && Group(g, ISym(s)) == IChoice(c)
    ensures m.syms[s] == 1 ==> Plus(Groups(g), IChoice(c), IChoice(c))
  {
    assert Colour(m, ISym(s)) == m.syms[s];
  }

  lemma MembersStay(g: Graph, m: Marks, m': Marks, c: nat, skip: Option<nat>)
    requires GraphOk(g) && Sized(g, m) && Sized(g, m') && c < |g.members| && Advances(m, m') && m.choices[c] == 1
    requires StackReach(g, m, IChoice(c)) && MembersPlus(g, m, c, skip)
    ensures m'.choices[c] == 1 && StackReach(g, m', IChoice(c)) && MembersPlus(g, m', c, skip)
  {
    assert Colour(m, IChoice(c)) == 1 && Colour(m', IChoice(c)) == 1;
  }

  lemma SoundBelowSame(g: Graph, m1: Marks, m: Marks, z: Item, o: Outcome)
    requires SoundBelow(g, m1, z, o) && forall y :: Colour(m1, y) == 1 <==> Colour(m, y) == 1
    ensures SoundBelow(g, m, z, o)
  {
  }

  lemma SoundAbove(g: Graph, m: Marks, z: Item, y: Item, o: Outcome)
    requires Sound(g, m, z, o) && Feeds(g, y, z)
    ensures SoundBelow(g, m, y, o)
  {
  }

  // ---- What the search compares ----

  /** a stands before b in ms. */
  predicate Earlier(ms: seq<nat>, a: nat, b: nat) {
    exists j | 0 <= j < |ms| :: ms[j] == a && b !in ms[..j + 1]
  }

  /** Inside choice c: its entry leads to the choice, and any other symbol to those before it. */
  predicate LeadsInside(g: Graph, entry: seq<Option<nat>>, c: nat, s: nat, b: Item) {
    && c < |g.members| && c < |entry|
    && if entry[c] == Some(s) then b == IChoice(c)
       else b.ISym? && entry[c] != Some(b.s) && Earlier(g.members[c], b.s, s)
  }

  /** An item leads to its dependents, and a choice to its symbols except the entry. */
  predicate Leads(g: Graph, entry: seq<Option<nat>>, a: Item, b: Item) {
    match a
    case ISym(s) =>
      && s < |g.deps| && s < |g.owner|
      && (b in g.deps[s] || (g.owner[s].Some? && LeadsInside(g, entry, g.owner[s].value, s, b)))
    case IChoice(c) => c < |g.members| && c < |entry| && b.ISym? && b.s in g.members[c] && entry[c] != Some(b.s)
  }

  ghost function Calls(g: Graph, entry: seq<Option<nat>>): Relation {
    (a, b) => Leads(g, entry, a, b)
  }

  /** The loops that the search finds when it enters the choices by the given symbols. */
  ghost predicate SearchLoop(g: Graph, entry: seq<Option<nat>>) {
    HasLoop(Calls(g, entry))
  }

  /** The entries of all choices that are no longer new. */
  ghost predicate EntriesOf(m: Marks, entry: seq<Option<nat>>) {
    |entry| == |m.entry| == |m.choices| && forall c | 0 <= c < |m.choices| && m.choices[c] != 0 :: entry[c] == m.entry[c]
  }

  lemma EntriesBelow(m: Marks, m': Marks, entry: seq<Option<nat>>)
    requires Later(m, m') && EntriesOf(m', entry)
    ensures EntriesOf(m, entry)
  {
  }

  /** Choice c is searching a symbol that is not its entry; the symbols before it are finished or the entry. */
  ghost predicate Searching(g: Graph, m: Marks, c: nat)
    requires GraphOk(g) && Sized(g, m) && c < |g.members|
  {
    && m.cur[c] < |g.members[c]| && m.entry[c] != Some(g.members[c][m.cur[c]])
    && EntryGrey(m, c) && Passed(g, m, c, m.cur[c])
  }

  /** The entry of choice c is on the call stack. */
  ghost predicate EntryGrey(m: Marks, c: nat) {
    c < |m.entry| && (m.entry[c].Some? ==> Colour(m, ISym(m.entry[c].value)) == 1)
  }

  ghost predicate Passed(g: Graph, m: Marks, c: nat, n: nat) {
    && c < |g.members| && c < |m.entry| && n <= |g.members[c]|
    && forall j | 0 <= j < n :: m.entry[c] == Some(g.members[c][j]) || Colour(m, ISym(g.members[c][j])) == 2
  }

  ghost predicate Busy(g: Graph, m: Marks, c: nat)
    requires GraphOk(g) && Sized(g, m) && c < |g.members|
  {
    Searching(g, m, c) && m.syms[g.members[c][m.cur[c]]] == 1
  }

  /** Every choice on the call stack is searching a symbol; `own` is excepted. */
  ghost predicate Stacked(g: Graph, m: Marks, own: Option<nat>)
    requires GraphOk(g) && Sized(g, m)
  {
    forall c | 0 <= c < |g.members| && m.choices[c] == 1 && own != Some(c) :: Busy(g, m, c)
  }

  /** Symbol s is the one that its choice searches next. */
  ghost predicate Current(g: Graph, m: Marks, s: nat)
    requires GraphOk(g) && Sized(g, m) && s < |g.owner|
  {
    && g.owner[s].Some?
    && var c := g.owner[s].value;
      m.choices[c] == 1 && Searching(g, m, c) && g.members[c][m.cur[c]] == s
  }

  lemma SearchingStays(g: Graph, m: Marks, m': Marks, c: nat)
    requires GraphOk(g) && Sized(g, m) && Sized(g, m') && c < |g.members| && m.choices[c] == 1 && Searching(g, m, c)
    requires Advances(m, m') && Later(m, m')
    ensures Searching(g, m', c) && (Busy(g, m, c) ==> Busy(g, m', c))
  {
    var s := g.members[c][m.cur[c]];
    assert Colour(m, ISym(s)) == m.syms[s] && Colour(m', ISym(s)) == m'.syms[s];
  }

  lemma StackedStays(g: Graph, m: Marks, m': Marks, own: Option<nat>)
    requires GraphOk(g) && Sized(g, m) && Sized(g, m') && Stacked(g, m, own) && Advances(m, m') && Later(m, m')
    ensures Stacked(g, m', own)
  {
    forall c | 0 <= c < |g.members| && m'.choices[c] == 1 && own != Some(c) ensures Busy(g, m', c) {
      assert Colour(m', IChoice(c)) == 1 && Colour(m, IChoice(c)) == 1;
      SearchingStays(g, m, m', c);
    }
  }

  lemma SearchingPainted(g: Graph, m: Marks, s: nat, c: nat)
    requires GraphOk(g) && Sized(g, m) && s < |g.owner| && m.syms[s] == 0 && c < |g.members| && Searching(g, m, c)
    ensures Searching(g, Paint(m, ISym(s), 1), c) && (Busy(g, m, c) ==> Busy(g, Paint(m, ISym(s), 1), c))
  {
    var grey := Paint(m, ISym(s), 1);
    assert forall z :: Colour(grey, z) == if z == ISym(s) then 1 else Colour(m, z);
    assert Colour(m, ISym(s)) == 0;
  }

  /** When the search of s starts, all choices on the call stack are busy. */
  lemma StackedStart(g: Graph, m: Marks, s: nat, ignore: bool)
    requires GraphOk(g) && Sized(g, m) && s < |g.owner| && m.syms[s] == 0
    requires Stacked(g, m, if ignore then g.owner[s] else None) && (ignore ==> Current(g, m, s))
    ensures Stacked(g, Paint(m, ISym(s), 1), None)
  {
    var grey := Paint(m, ISym(s), 1);
    forall c | 0 <= c < |g.members| && grey.choices[c] == 1 ensures Busy(g, grey, c) {
      SearchingPainted(g, m, s, c);
    }
  }

  lemma StackedEnter(g: Graph, m: Marks, c: nat, skip: Option<nat>)
    requires GraphOk(g) && Sized(g, m) && c < |g.members| && m.choices[c] == 0 && Stacked(g, m, None)
    ensures Sized(g, Enter(m, c, skip)) && Stacked(g, Enter(m, c, skip), Some(c))
  {
    var grey := Enter(m, c, skip);
    EnterFalls(m, c, skip);
    forall d | 0 <= d < |g.members| && grey.choices[d] == 1 && d != c ensures Busy(g, grey, d) {
      assert Busy(g, m, d);
      assert forall s: nat :: Colour(grey, ISym(s)) == Colour(m, ISym(s));
    }
  }

  /** Choice c turns to its i-th symbol. */
  lemma StackedMoved(g: Graph, m: Marks, c: nat, i: nat)
    requires GraphOk(g) && Sized(g, m) && c < |g.members| && i < |g.members[c]| && m.choices[c] == 1
    requires Stacked(g, m, Some(c)) && EntryGrey(m, c) && Passed(g, m, c, i)
    ensures var at := m.(cur := m.cur[c := i]);
      && Stacked(g, at, Some(c)) && EntryGrey(at, c) && Passed(g, at, c, i)
      && if m.entry[c] == Some(g.members[c][i]) then Passed(g, at, c, i + 1) else Current(g, at, g.members[c][i])
  {
    var at := m.(cur := m.cur[c := i]);
    assert forall z :: Colour(at, z) == Colour(m, z);
    forall d | 0 <= d < |g.members| && at.choices[d] == 1 && d != c ensures Busy(g, at, d) {
      assert Busy(g, m, d);
    }
  }

  /** The search of its i-th symbol is over. */
  lemma StackedNext(g: Graph, at: Marks, m': Marks, c: nat, i: nat)
    requires GraphOk(g) && Sized(g, at) && Sized(g, m') && c < |g.members| && i < |g.members[c]| && at.choices[c] == 1
    requires Stacked(g, at, Some(c)) && EntryGrey(at, c) && Passed(g, at, c, i)
    requires Advances(at, m') && Later(at, m') && Colour(m', ISym(g.members[c][i])) == 2
    ensures Stacked(g, m', Some(c)) && EntryGrey(m', c) && Passed(g, m', c, i + 1) && m'.choices[c] == 1
  {
    StackedStays(g, at, m', Some(c));
    PassedNext(g, at, m', c, i);
  }

  // ---- Whatever is reported is such a loop ----

  /** Every item on the call stack leads to b, in at least one step. */
  ghost predicate StackLeads(g: Graph, entry: seq<Option<nat>>, m: Marks, b: Item) {
    forall z | Colour(m, z) == 1 :: Plus(Calls(g, entry), z, b)
  }

  ghost predicate StackAbove(g: Graph, entry: seq<Option<nat>>, m: Marks, b: Item) {
    forall z | Colour(m, z) == 1 :: Reach(Calls(g, entry), z, b)
  }

  lemma StackLeadsOn(g: Graph, entry: seq<Option<nat>>, m: Marks, a: Item, b: Item)
    requires StackAbove(g, entry, m, a) && Leads(g, entry, a, b)
    ensures StackLeads(g, entry, m, b)
  {
    forall z | Colour(m, z) == 1 ensures Plus(Calls(g, entry), z, b) { ReachStep(Calls(g, entry), z, a, b); }
  }

  /** Item b goes on the call stack. */
  lemma StackPushed(g: Graph, entry: seq<Option<nat>>, m: Marks, m': Marks, b: Item)
    requires StackLeads(g, entry, m, b) && forall z | Colour(m', z) == 1 && z != b :: Colour(m, z) == 1
    ensures StackAbove(g, entry, m', b)
  {
    ReachSelf(Calls(g, entry), b);
    forall z | Colour(m', z) == 1 ensures Reach(Calls(g, entry), z, b) {
      if z != b { PlusReach(Calls(g, entry), z, b); }
    }
  }

  /** A symbol that runs into its own choice comes behind the one that the choice is searching. */
  lemma OwnChoiceLoops(g: Graph, entry: seq<Option<nat>>, m: Marks, m1: Marks, s: nat, c: nat)
    requires GraphOk(g) && Sized(g, m) && Sized(g, m1) && s < |g.owner| && g.owner[s] == Some(c)
    requires m.syms[s] == 0 && m.choices[c] == 1 && Busy(g, m, c) && EntriesOf(m, entry)
    requires Plus(Calls(g, entry), ISym(g.members[c][m.cur[c]]), ISym(s))
    ensures SearchLoop(g, entry)
  {
    var i := m.cur[c];
    var a := g.members[c][i];
    assert Colour(m, ISym(s)) == 0;
    assert g.members[c][i] == a && s !in g.members[c][..i + 1];
    assert Earlier(g.members[c], a, s);
    assert Leads(g, entry, ISym(s), ISym(a));
    PlusReach(Calls(g, entry), ISym(a), ISym(s));
    ReachStep(Calls(g, entry), ISym(a), ISym(s), ISym(a));
  }

  lemma {:induction false} SymReports(g: Graph, m: Marks, s: nat, ignore: bool, entry: seq<Option<nat>>)
    requires GraphOk(g) && Sized(g, m) && s < |g.owner| && EntriesOf(VisitSym(g, m, s, ignore).0, entry)
    requires Stacked(g, m, if ignore then g.owner[s] else None) && (ignore ==> Current(g, m, s))
    requires StackLeads(g, entry, m, ISym(s))
    ensures VisitSym(g, m, s, ignore).1.NoLoop? || SearchLoop(g, entry)
    decreases White(m.syms, m.choices), 0
  {
    if m.syms[s] == 0 {
      var grey := Paint(m, ISym(s), 1);
      PaintFalls(m, ISym(s), 1);
      StackedStart(g, m, s, ignore);
      assert forall y | y != ISym(s) :: Colour(grey, y) == Colour(m, y);
      StackPushed(g, entry, m, grey, ISym(s));
      var (m1, o1) := VisitDeps(g, grey, s, 0);
      SymReportsRest(g, m, s, ignore, entry, m1);
      DepsReports(g, grey, s, 0, entry);
      if o1.NoLoop? && g.owner[s].Some? && !ignore {
        var c := g.owner[s].value;
        DepsAdvances(g, grey, s, 0);
        StackedStays(g, grey, m1, None);
        var (m2, o2) := VisitChoice(g, m1, c, Some(s));
        if m1.choices[c] == 1 {
          assert Colour(m1, IChoice(c)) == 1 && Colour(grey, IChoice(c)) == 1 && Colour(m, IChoice(c)) == 1;
          assert Busy(g, m, c);
          assert Colour(m, ISym(g.members[c][m.cur[c]])) == 1;
          EntriesBelow(m, m1, entry);
          OwnChoiceLoops(g, entry, m, m1, s, c);
        } else if m1.choices[c] == 0 {
          ChoiceEntered(g, m1, c, Some(s), entry);
          assert Leads(g, entry, ISym(s), IChoice(c));
          assert StackAbove(g, entry, m1, ISym(s));
          StackLeadsOn(g, entry, m1, ISym(s), IChoice(c));
          ChoiceReports(g, m1, c, Some(s), entry);
        }
      }
    } else if m.syms[s] == 1 {
      assert Colour(m, ISym(s)) == 1;
    }
  }

  lemma SymReportsRest(g: Graph, m: Marks, s: nat, ignore: bool, entry: seq<Option<nat>>, m1: Marks)
    requires GraphOk(g) && Sized(g, m) && s < |g.owner| && EntriesOf(VisitSym(g, m, s, ignore).0, entry)
    requires m.syms[s] == 0 && m1 == VisitDeps(g, Paint(m, ISym(s), 1), s, 0).0
    ensures EntriesOf(m1, entry) && Later(m, m1)
    ensures VisitDeps(g, Paint(m, ISym(s), 1), s, 0).1.NoLoop? && g.owner[s].Some? && !ignore ==>
              EntriesOf(VisitChoice(g, m1, g.owner[s].value, Some(s)).0, entry)
  {
  }

  lemma ChoiceEntered(g: Graph, m: Marks, c: nat, skip: Option<nat>, entry: seq<Option<nat>>)
    requires GraphOk(g) && Sized(g, m) && c < |g.members| && m.choices[c] == 0
    requires EntriesOf(VisitChoice(g, m, c, skip).0, entry)
    ensures entry[c] == skip && EntriesOf(Enter(m, c, skip), entry)
    ensures EntriesOf(VisitMembers(g, Enter(m, c, skip), c, skip, 0).0, entry)
  {
    var m1 := VisitMembers(g, Enter(m, c, skip), c, skip, 0).0;
    assert Later(Enter(m, c, skip), m1);
  }

  lemma {:induction false} DepsReports(g: Graph, m: Marks, s: nat, i: nat, entry: seq<Option<nat>>)
    requires GraphOk(g) && Sized(g, m) && s < |g.deps| && i <= |g.deps[s]| && EntriesOf(VisitDeps(g, m, s, i).0, entry)
    requires Stacked(g, m, None) && StackAbove(g, entry, m, ISym(s))
    ensures VisitDeps(g, m, s, i).1.NoLoop? || SearchLoop(g, entry)
    decreases White(m.syms, m.choices), 2 + |g.deps[s]| - i
  {
    if i < |g.deps[s]| {
      var d := g.deps[s][i];
      assert InGraph(g, d) && Leads(g, entry, ISym(s), d);
      StackLeadsOn(g, entry, m, ISym(s), d);
      var r := VisitDep(g, m, d);
      DepsNext(g, m, s, i, r);
      if r.1.NoLoop? { EntriesBelow(r.0, VisitDeps(g, r.0, s, i + 1).0, entry); }
      if d.ISym? { SymReports(g, m, d.s, false, entry); } else { ChoiceReports(g, m, d.c, None, entry); }
      if r.1.NoLoop? {
        DepAdvances(g, m, d);
        StackedStays(g, m, r.0, None);
        assert StackAbove(g, entry, r.0, ISym(s));
        DepsReports(g, r.0, s, i + 1, entry);
      }
    }
  }

  lemma {:induction false} ChoiceReports(g: Graph, m: Marks, c: nat, skip: Option<nat>, entry: seq<Option<nat>>)
    requires GraphOk(g) && Sized(g, m) && c < |g.members| && EntriesOf(VisitChoice(g, m, c, skip).0, entry)
    requires Stacked(g, m, None) && StackLeads(g, entry, m, IChoice(c))
    requires skip.Some? ==> Colour(m, ISym(skip.value)) == 1
    ensures VisitChoice(g, m, c, skip).1.NoLoop? || SearchLoop(g, entry)
    decreases White(m.syms, m.choices), 0
  {
    if m.choices[c] == 0 {
      var grey := Enter(m, c, skip);
      EnterFalls(m, c, skip);
      StackedEnter(g, m, c, skip);
      ChoiceEntered(g, m, c, skip, entry);
      StackPushed(g, entry, m, grey, IChoice(c));
      MembersReports(g, grey, c, skip, 0, entry);
    } else if m.choices[c] == 1 {
      assert Colour(m, IChoice(c)) == 1;
    }
  }

  lemma {:induction false} MembersReports(g: Graph, m: Marks, c: nat, skip: Option<nat>, i: nat, entry: seq<Option<nat>>)
    requires GraphOk(g) && Sized(g, m) && c < |g.members| && i <= |g.members[c]| && m.choices[c] == 1
    requires EntriesOf(VisitMembers(g, m, c, skip, i).0, entry) && m.entry[c] == skip == entry[c]
    requires Stacked(g, m, Some(c)) && EntryGrey(m, c) && Passed(g, m, c, i) && StackAbove(g, entry, m, IChoice(c))
    ensures VisitMembers(g, m, c, skip, i).1.NoLoop? || SearchLoop(g, entry)
    decreases White(m.syms, m.choices), 2 + |g.members[c]| - i
  {
    if i < |g.members[c]| {
      var s := g.members[c][i];
      var at := m.(cur := m.cur[c := i]);
      MembersStep(g, m, c, skip, i, at, VisitMember(g, at, s, skip));
      assert forall z :: Colour(at, z) == Colour(m, z);
      StackedMoved(g, m, c, i);
      if skip == Some(s) {
        MembersReports(g, at, c, skip, i + 1, entry);
      } else {
        var (m1, o) := VisitSym(g, at, s, true);
        if o.NoLoop? { EntriesBelow(m1, VisitMembers(g, m1, c, skip, i + 1).0, entry); }
        assert Leads(g, entry, IChoice(c), ISym(s));
        StackLeadsOn(g, entry, at, IChoice(c), ISym(s));
        SymReports(g, at, s, true, entry);
        if o.NoLoop? {
          SymAdvances(g, at, s, true);
          StackedNext(g, at, m1, c, i);
          MembersReports(g, m1, c, skip, i + 1, entry);
        }
      }
    }
  }

  // ---- Whatever is passed has no such loop ----

  /** Every item leads only to items before it. */
  ghost predicate Backward(g: Graph, entry: seq<Option<nat>>, order: seq<Item>) {
    forall p, y | 0 <= p < |order| && Leads(g, entry, order[p], y) :: y in order[..p]
  }

  /** The finished items, in order, lead only to earlier ones, and their choices are known. */
  ghost predicate Sorted(g: Graph, m: Marks)
    requires GraphOk(g)
  {
    && Sized(g, m) && Backward(g, m.entry, m.order)
    && (forall z :: z in m.order <==> Colour(m, z) == 2)
    && (forall s | 0 <= s < |g.owner| && m.syms[s] == 2 && g.owner[s].Some? :: m.choices[g.owner[s].value] != 0)
  }

  lemma SortedFinish(g: Graph, m: Marks, z: Item, m': Marks)
    requires GraphOk(g) && Sorted(g, m) && InGraph(g, z)
    requires m' == Paint(m, z, 2).(order := m.order + [z])
    requires forall y | Leads(g, m.entry, z, y) :: Colour(m, y) == 2
    requires z.ISym? && g.owner[z.s].Some? ==> m.choices[g.owner[z.s].value] != 0
    ensures Sorted(g, m')
  {
    forall p, y | 0 <= p < |m'.order| && Leads(g, m.entry, m'.order[p], y) ensures y in m'.order[..p] {
      if p < |m.order| {
        assert m'.order[p] == m.order[p] && m'.order[..p] == m.order[..p];
      } else {
        assert m'.order[..p] == m.order && m'.order[p] == z;
      }
    }
    assert forall y :: Colour(m', y) == if y == z then 2 else Colour(m, y);
    assert m'.order[|m.order|] == z;
  }

  lemma SortedPaint(g: Graph, m: Marks, z: Item)
    requires GraphOk(g) && Sorted(g, m) && InGraph(g, z) && Colour(m, z) == 0
    ensures Sorted(g, Paint(m, z, 1))
  {
    assert forall y :: Colour(Paint(m, z, 1), y) == if y == z then 1 else Colour(m, y);
  }

  /** The entry of a new choice does not matter yet. */
  lemma SortedEntry(g: Graph, m: Marks, c: nat, skip: Option<nat>)
    requires GraphOk(g) && Sorted(g, m) && c < |g.members| && m.choices[c] == 0
    ensures Sorted(g, m.(entry := m.entry[c := skip]))
  {
    var e := m.(entry := m.entry[c := skip]);
    assert forall z :: Colour(e, z) == Colour(m, z);
    forall p, y | 0 <= p < |m.order| && Leads(g, e.entry, m.order[p], y) ensures y in m.order[..p] {
      var z := m.order[p];
      assert z in m.order && Colour(m, z) == 2;
      assert Leads(g, m.entry, z, y) by {
        match z
        case ISym(s) => assert m.syms[s] == 2;
        case IChoice(d) => assert d != c;
      }
    }
  }

  lemma {:induction false} SymSorts(g: Graph, m: Marks, s: nat, ignore: bool)
    requires GraphOk(g) && Sorted(g, m) && s < |g.owner| && VisitSym(g, m, s, ignore).1.NoLoop?
    requires ignore ==> Current(g, m, s)
    ensures Sorted(g, VisitSym(g, m, s, ignore).0)
    decreases White(m.syms, m.choices), 0
  {
    if m.syms[s] == 0 {
      var grey := Paint(m, ISym(s), 1);
      PaintFalls(m, ISym(s), 1);
      SortedPaint(g, m, ISym(s));
      DepsSorts(g, grey, s, 0);
      DepsAdvances(g, grey, s, 0);
      var m1 := VisitDeps(g, grey, s, 0).0;
      if g.owner[s].None? {
        SortedFinish(g, m1, ISym(s), FinishSym(m1, s));
      } else if ignore {
        SearchingPainted(g, m, s, g.owner[s].value);
        MemberLeads(g, grey, m1, s, g.owner[s].value);
        SortedFinish(g, m1, ISym(s), FinishSym(m1, s));
      } else {
        var c := g.owner[s].value;
        ChoiceSorts(g, m1, c, Some(s));
        ChoiceAdvances(g, m1, c, Some(s));
        var m2 := VisitChoice(g, m1, c, Some(s)).0;
        EntryLeads(g, m1, m2, s, c);
        SortedFinish(g, m2, ISym(s), FinishSym(m2, s));
      }
    }
  }

  /** A symbol that its choice searches leads to finished symbols of the choice. */
  lemma MemberLeads(g: Graph, m: Marks, m1: Marks, s: nat, c: nat)
    requires GraphOk(g) && Sized(g, m) && Sized(g, m1) && s < |g.owner| && g.owner[s] == Some(c) && Current(g, m, s)
    requires Advances(m, m1) && Later(m, m1)
    requires forall j | 0 <= j < |g.deps[s]| :: Colour(m1, g.deps[s][j]) == 2
    ensures forall y | Leads(g, m1.entry, ISym(s), y) :: Colour(m1, y) == 2
    ensures m1.choices[c] != 0
  {
    forall y | Leads(g, m1.entry, ISym(s), y) ensures Colour(m1, y) == 2 {
      if y in g.deps[s] {
        var j :| 0 <= j < |g.deps[s]| && g.deps[s][j] == y;
      } else {
        var ms := g.members[c];
        var j :| 0 <= j < |ms| && ms[j] == y.s && s !in ms[..j + 1];
        assert forall k | 0 <= k <= j :: ms[..j + 1][k] == ms[k];
        assert j < m.cur[c] && Colour(m, y) == 2;
      }
    }
  }

  lemma LeadsDone(g: Graph, m: Marks, a: Item)
    requires GraphOk(g) && Sorted(g, m) && Colour(m, a) == 2
    ensures forall y | Leads(g, m.entry, a, y) :: Colour(m, y) == 2
  {
    assert a in m.order;
    var p :| 0 <= p < |m.order| && m.order[p] == a;
    forall y | Leads(g, m.entry, a, y) ensures Colour(m, y) == 2 {
      assert Leads(g, m.entry, m.order[p], y);
      assert y in m.order[..p] && y in m.order;
    }
  }

  /** A symbol whose search goes on with its choice is the entry. */
  lemma EntryLeads(g: Graph, m1: Marks, m2: Marks, s: nat, c: nat)
    requires GraphOk(g) && Sized(g, m1) && Sorted(g, m2) && s < |g.owner| && g.owner[s] == Some(c)
    requires m1.syms[s] == 1 && Advances(m1, m2) && Colour(m2, IChoice(c)) == 2
    requires forall j | 0 <= j < |g.deps[s]| :: Colour(m1, g.deps[s][j]) == 2
    ensures forall y | Leads(g, m2.entry, ISym(s), y) :: Colour(m2, y) == 2
  {
    assert Colour(m1, ISym(s)) == 1 && Colour(m2, ISym(s)) == 1;
    LeadsDone(g, m2, IChoice(c));
    assert m2.entry[c] == Some(s) || Leads(g, m2.entry, IChoice(c), ISym(s));
    forall y | Leads(g, m2.entry, ISym(s), y) ensures Colour(m2, y) == 2 {
      if y in g.deps[s] {
        var j :| 0 <= j < |g.deps[s]| && g.deps[s][j] == y;
        assert Colour(m1, y) == 2;
      }
    }
  }

  lemma {:induction false} DepsSorts(g: Graph, m: Marks, s: nat, i: nat)
    requires GraphOk(g) && Sorted(g, m) && s < |g.deps| && i <= |g.deps[s]| && VisitDeps(g, m, s, i).1.NoLoop?
    requires forall j | 0 <= j < i :: Colour(m, g.deps[s][j]) == 2
    ensures Sorted(g, VisitDeps(g, m, s, i).0)
    ensures forall j | 0 <= j < |g.deps[s]| :: Colour(VisitDeps(g, m, s, i).0, g.deps[s][j]) == 2
    decreases White(m.syms, m.choices), 2 + |g.deps[s]| - i
  {
    if i < |g.deps[s]| {
      var d := g.deps[s][i];
      assert InGraph(g, d);
      var r := VisitDep(g, m, d);
      DepsNext(g, m, s, i, r);
      if d.ISym? { SymSorts(g, m, d.s, false); } else { ChoiceSorts(g, m, d.c, None); }
      DepAdvances(g, m, d);
      DepsSorts(g, r.0, s, i + 1);
    }
  }

  lemma {:induction false} ChoiceSorts(g: Graph, m: Marks, c: nat, skip: Option<nat>)
    requires GraphOk(g) && Sorted(g, m) && c < |g.members| && VisitChoice(g, m, c, skip).1.NoLoop?
    requires skip.Some? ==> Colour(m, ISym(skip.value)) == 1
    ensures Sorted(g, VisitChoice(g, m, c, skip).0)
    decreases White(m.syms, m.choices), 0
  {
    if m.choices[c] == 0 {
      var grey := Enter(m, c, skip);
      EnterFalls(m, c, skip);
      SortedEntry(g, m, c, skip);
      SortedPaint(g, m.(entry := m.entry[c := skip]), IChoice(c));
      MembersSorts(g, grey, c, skip, 0);
      SortedFinish(g, VisitMembers(g, grey, c, skip, 0).0, IChoice(c), VisitChoice(g, m, c, skip).0);
    }
  }

  lemma SortedMoved(g: Graph, m: Marks, c: nat, i: nat)
    requires GraphOk(g) && Sorted(g, m) && c < |g.members| && i < |g.members[c]| && m.choices[c] == 1
    requires EntryGrey(m, c) && Passed(g, m, c, i)
    ensures var at := m.(cur := m.cur[c := i]);
      && Sorted(g, at) && EntryGrey(at, c) && Passed(g, at, c, i)
      && if m.entry[c] == Some(g.members[c][i]) then Passed(g, at, c, i + 1) else Current(g, at, g.members[c][i])
  {
    var at := m.(cur := m.cur[c := i]);
    assert forall z :: Colour(at, z) == Colour(m, z);
  }

  lemma {:induction false} MembersSorts(g: Graph, m: Marks, c: nat, skip: Option<nat>, i: nat)
    requires GraphOk(g) && Sorted(g, m) && c < |g.members| && i <= |g.members[c]| && m.choices[c] == 1
    requires m.entry[c] == skip && EntryGrey(m, c) && Passed(g, m, c, i) && VisitMembers(g, m, c, skip, i).1.NoLoop?
    ensures var m' := VisitMembers(g, m, c, skip, i).0;
      && Sorted(g, m') && (forall y | Leads(g, m'.entry, IChoice(c), y) :: Colour(m', y) == 2)
    decreases White(m.syms, m.choices), 2 + |g.members[c]| - i
  {
    if i < |g.members[c]| {
      var s := g.members[c][i];
      var at := m.(cur := m.cur[c := i]);
      MembersStep(g, m, c, skip, i, at, VisitMember(g, at, s, skip));
      SortedMoved(g, m, c, i);
      if skip == Some(s) {
        MembersSorts(g, at, c, skip, i + 1);
      } else {
        var m1 := VisitSym(g, at, s, true).0;
        SymSorts(g, at, s, true);
        SymAdvances(g, at, s, true);
        PassedNext(g, at, m1, c, i);
        MembersSorts(g, m1, c, skip, i + 1);
      }
    } else {
      PassedLeads(g, m, c);
    }
  }

  lemma PassedNext(g: Graph, at: Marks, m': Marks, c: nat, i: nat)
    requires GraphOk(g) && Sized(g, at) && Sized(g, m') && c < |g.members| && i < |g.members[c]| && at.choices[c] == 1
    requires EntryGrey(at, c) && Passed(g, at, c, i)
    requires Advances(at, m') && Later(at, m') && Colour(m', ISym(g.members[c][i])) == 2
    ensures EntryGrey(m', c) && Passed(g, m', c, i + 1) && m'.choices[c] == 1
  {
    assert Colour(at, IChoice(c)) == 1 && Colour(m', IChoice(c)) == 1;
  }

  lemma PassedLeads(g: Graph, m: Marks, c: nat)
    requires GraphOk(g) && Sized(g, m) && c < |g.members| && Passed(g, m, c, |g.members[c]|)
    ensures forall y | Leads(g, m.entry, IChoice(c), y) :: Colour(m, y) == 2
  {
    forall y | Leads(g, m.entry, IChoice(c), y) ensures Colour(m, y) == 2 {
      var j :| 0 <= j < |g.members[c]| && g.members[c][j] == y.s;
    }
  }

  /** Once all symbols are finished, what the search compares has no loop. */
  lemma SortedNoLoop(g: Graph, m: Marks)
    requires GraphOk(g) && Sorted(g, m) && Idle(m) && forall t | 0 <= t < |g.owner| :: m.syms[t] == 2
    ensures !SearchLoop(g, m.entry)
  {
    var f := z => PosOf(m.order, z);
    forall a, b | Leads(g, m.entry, a, b) ensures f(b) < f(a) {
      assert a in m.order by {
        match a
        case ISym(s) => assert Colour(m, a) == 2;
        case IChoice(c) => assert m.syms[b.s] == 2 && Colour(m, a) != 1;
      }
      PosBefore(m.order, f(a), b);
    }
    FallingNoLoop(Calls(g, m.entry), f);
  }

  // ---- Without paths back, nothing is missed ----

  /** Each dependent of a symbol belongs to a group finished earlier. */
  ghost predicate DepsIn(g: Graph, s: nat, order: seq<Item>) {
    s < |g.deps| && forall i | 0 <= i < |g.deps[s]| :: Group(g, g.deps[s][i]) in order
  }

  /** The finished groups are in dependency order, dependents first. */
  ghost predicate Ordered(g: Graph, order: seq<Item>) {
    forall p, s | 0 <= p < |order| && 0 <= s < |g.deps| && Group(g, ISym(s)) == order[p] :: DepsIn(g, s, order[..p])
  }

  /** Symbol s is among the first n + 1 of choice c. */
  ghost predicate Seen(g: Graph, c: nat, n: nat, s: nat) {
    c < |g.members| && exists l | 0 <= l < |g.members[c]| && l <= n :: g.members[c][l] == s
  }

  /** A finished symbol: its dependents are finished, and it is in the order or its choice has reached it. */
  ghost predicate SymTidy(g: Graph, m: Marks, s: nat)
    requires GraphOk(g) && Sized(g, m) && s < |g.owner|
  {
    && DepsIn(g, s, m.order)
    && (match g.owner[s]
        case None => ISym(s) in m.order
        case Some(c) => m.choices[c] == 2 || (m.choices[c] == 1 && Seen(g, c, m.cur[c], s)))
  }

  ghost predicate Tidy(g: Graph, m: Marks)
    requires GraphOk(g)
  {
    && Sized(g, m) && Ordered(g, m.order)
    && (forall s | 0 <= s < |g.owner| && m.syms[s] == 2 :: SymTidy(g, m, s))
    && (forall c | 0 <= c < |g.members| && m.choices[c] == 2 :: IChoice(c) in m.order)
  }

  /** The symbol that choice c is searching is on the call stack and group b is reached from it. */
  ghost predicate ReachesBelow(g: Graph, m: Marks, c: nat, b: Item)
    requires GraphOk(g) && Sized(g, m) && c < |g.members|
  {
    Busy(g, m, c) && Leaves(g, g.members[c][m.cur[c]], b)
  }

  /** Every choice on the call stack reached group b; `own` excepts the choice whose symbol is being entered. */
  ghost predicate Entering(g: Graph, m: Marks, b: Item, own: Option<nat>)
    requires GraphOk(g) && Sized(g, m)
  {
    forall c | 0 <= c < |g.members| && m.choices[c] == 1 && own != Some(c) :: ReachesBelow(g, m, c, b)
  }

  /** Every choice on the call stack reached symbol z, or is searching it now. */
  ghost predicate Above(g: Graph, m: Marks, z: nat)
    requires GraphOk(g) && Sized(g, m)
  {
    forall c | 0 <= c < |g.members| && m.choices[c] == 1 :: Busy(g, m, c) && From(g, g.members[c][m.cur[c]], z)
  }

  lemma DepsInMore(g: Graph, s: nat, order: seq<Item>, order': seq<Item>)
    requires DepsIn(g, s, order) && order <= order'
    ensures DepsIn(g, s, order')
  {
    forall i | 0 <= i < |g.deps[s]| ensures Group(g, g.deps[s][i]) in order' {
      assert Group(g, g.deps[s][i]) in order;
    }
  }

  lemma OrderedMore(g: Graph, order: seq<Item>, z: Item)
    requires Ordered(g, order)
    requires forall s | 0 <= s < |g.deps| && Group(g, ISym(s)) == z :: DepsIn(g, s, order)
    ensures Ordered(g, order + [z])
  {
    var more := order + [z];
    forall p, s | 0 <= p < |more| && 0 <= s < |g.deps| && Group(g, ISym(s)) == more[p] ensures DepsIn(g, s, more[..p]) {
      if p < |order| {
        assert more[..p] == order[..p] && order[p] == more[p];
      } else {
        assert more[..p] == order;
      }
    }
  }

  lemma SymTidyMore(g: Graph, m: Marks, m': Marks, s: nat)
    requires GraphOk(g) && Sized(g, m) && Sized(g, m') && s < |g.owner| && SymTidy(g, m, s)
    requires m.order <= m'.order && m'.cur == m.cur
    requires forall c | 0 <= c < |g.members| && m.choices[c] != m'.choices[c] :: m.choices[c] < m'.choices[c] == 2
    ensures SymTidy(g, m', s)
  {
    DepsInMore(g, s, m.order, m'.order);
    if g.owner[s].None? { assert ISym(s) in m.order; }
  }

  lemma FinishSymTidy(g: Graph, m: Marks, s: nat)
    requires GraphOk(g) && Tidy(g, m) && s < |g.owner| && DepsIn(g, s, m.order)
    requires g.owner[s].Some? ==>
               m.choices[g.owner[s].value] == 2 ||
               (m.choices[g.owner[s].value] == 1 && Seen(g, g.owner[s].value, m.cur[g.owner[s].value], s))
    ensures Tidy(g, FinishSym(m, s))
  {
    var m' := FinishSym(m, s);
    assert forall t | 0 <= t < |g.deps| && Group(g, ISym(t)) == ISym(s) :: t == s;
    OrderedMore(g, m.order, ISym(s));
    DepsInMore(g, s, m.order, m'.order);
    assert m'.order[|m.order|] == ISym(s);
    assert SymTidy(g, m', s);
    forall t | 0 <= t < |g.owner| && m'.syms[t] == 2 ensures SymTidy(g, m', t) {
      if t != s { SymTidyMore(g, m, m', t); }
    }
    forall c | 0 <= c < |g.members| && m'.choices[c] == 2 ensures IChoice(c) in m'.order {
      assert IChoice(c) in m.order;
    }
  }

  lemma FinishChoiceTidy(g: Graph, m: Marks, c: nat)
    requires GraphOk(g) && Tidy(g, m) && c < |g.members|
    requires MembersIn(g, c, |g.members[c]|, m.order)
    ensures Tidy(g, FinishChoice(m, c))
  {
    var m' := FinishChoice(m, c);
    forall s | 0 <= s < |g.deps| && Group(g, ISym(s)) == IChoice(c) ensures DepsIn(g, s, m.order) {
      assert s in g.members[c];
    }
    OrderedMore(g, m.order, IChoice(c));
    assert m'.order[|m.order|] == IChoice(c);
    forall t | 0 <= t < |g.owner| && m'.syms[t] == 2 ensures SymTidy(g, m', t) { SymTidyMore(g, m, m', t); }
    forall d | 0 <= d < |g.members| && m'.choices[d] == 2 ensures IChoice(d) in m'.order {
      if d != c { assert IChoice(d) in m.order; }
    }
  }

  lemma AboveStays(g: Graph, m: Marks, m': Marks, z: nat)
    requires GraphOk(g) && Sized(g, m) && Sized(g, m') && Above(g, m, z) && Advances(m, m') && Later(m, m')
    ensures Above(g, m', z)
  {
    forall c | 0 <= c < |g.members| && m'.choices[c] == 1 ensures Busy(g, m', c) && From(g, g.members[c][m'.cur[c]], z) {
      assert Colour(m', IChoice(c)) == 1 && Colour(m, IChoice(c)) == 1;
      SearchingStays(g, m, m', c);
    }
  }

  lemma EnteringStays(g: Graph, m: Marks, m': Marks, b: Item, own: Option<nat>)
    requires GraphOk(g) && Sized(g, m) && Sized(g, m') && Entering(g, m, b, own) && Stacked(g, m', own)
    requires forall z | Colour(m', z) == 1 && z.IChoice? && own != Some(z.c) :: Colour(m, z) == 1 && m'.cur[z.c] == m.cur[z.c]
    ensures Entering(g, m', b, own)
  {
    forall c | 0 <= c < |g.members| && m'.choices[c] == 1 && own != Some(c) ensures ReachesBelow(g, m', c, b) {
      assert Colour(m', IChoice(c)) == 1 && Colour(m, IChoice(c)) == 1;
      assert ReachesBelow(g, m, c, b);
    }
  }

  /** Where a search of symbol s starts, every choice on the call stack reaches s. */
  lemma AboveStart(g: Graph, m: Marks, s: nat, ignore: bool)
    requires GraphOk(g) && Sized(g, m) && s < |g.owner| && m.syms[s] == 0 && (ignore ==> Current(g, m, s))
    requires Entering(g, m, Group(g, ISym(s)), if ignore then g.owner[s] else None)
    ensures Above(g, Paint(m, ISym(s), 1), s)
  {
    StackedStart(g, m, s, ignore);
    forall c | 0 <= c < |g.members| && m.choices[c] == 1
      ensures m.cur[c] < |g.members[c]| && (g.members[c][m.cur[c]] == s || ReachesBelow(g, m, c, Group(g, ISym(s))))
    {
    }
  }

  /** The dependents of z are then entered in the same way. */
  lemma AboveEnters(g: Graph, m: Marks, z: nat, i: nat)
    requires GraphOk(g) && Sized(g, m) && z < |g.deps| && i < |g.deps[z]| && Above(g, m, z)
    ensures Entering(g, m, Group(g, g.deps[z][i]), None)
  {
    forall c | 0 <= c < |g.members| && m.choices[c] == 1 ensures ReachesBelow(g, m, c, Group(g, g.deps[z][i])) {
      FromStep(g, g.members[c][m.cur[c]], z, i);
    }
  }

  /** A finished dependent is in the order: otherwise there would be a path back within its choice. */
  lemma DepSettled(g: Graph, m: Marks, z: nat, i: nat, entry: seq<Option<nat>>)
    requires GraphOk(g) && NoBack(g, entry) && EntriesOf(m, entry) && Tidy(g, m) && z < |g.deps| && i < |g.deps[z]|
    requires Above(g, m, z) && Colour(m, g.deps[z][i]) == 2
    ensures Group(g, g.deps[z][i]) in m.order
  {
    var d := g.deps[z][i];
    if d.ISym? && g.owner[d.s].Some? {
      var c := g.owner[d.s].value;
      assert SymTidy(g, m, d.s);
      if m.choices[c] == 1 {
        assert Busy(g, m, c);
        var l :| 0 <= l < |g.members[c]| && l <= m.cur[c] && g.members[c][l] == d.s;
        assert BackAt(g, entry, c, l, m.cur[c], z);
      }
    }
  }

  ghost predicate AllSeen(g: Graph, m: Marks, c: nat, n: nat)
    requires Sized(g, m)
  {
    forall t | 0 <= t < |g.owner| && m.syms[t] == 2 && g.owner[t] == Some(c) :: Seen(g, c, n, t)
  }

  ghost predicate MembersIn(g: Graph, c: nat, n: nat, order: seq<Item>) {
    c < |g.members| && n <= |g.members[c]| && forall j | 0 <= j < n :: DepsIn(g, g.members[c][j], order)
  }

  lemma {:induction false} SymComplete(g: Graph, m: Marks, s: nat, ignore: bool, entry: seq<Option<nat>>)
    requires GraphOk(g) && NoBack(g, entry) && Tidy(g, m) && s < |g.owner| && EntriesOf(VisitSym(g, m, s, ignore).0, entry)
    requires VisitSym(g, m, s, ignore).1.NoLoop?
    requires m.syms[s] == 0 ==> Entering(g, m, Group(g, ISym(s)), if ignore then g.owner[s] else None)
    requires ignore ==> Current(g, m, s)
    ensures Tidy(g, VisitSym(g, m, s, ignore).0)
    decreases White(m.syms, m.choices), 0
  {
    if m.syms[s] == 0 {
      var grey := Paint(m, ISym(s), 1);
      PaintFalls(m, ISym(s), 1);
      PaintTidy(g, m, s);
      AboveStart(g, m, s, ignore);
      var m1 := VisitDeps(g, grey, s, 0).0;
      SymReportsRest(g, m, s, ignore, entry, m1);
      DepsComplete(g, grey, s, 0, entry);
      DepsAdvances(g, grey, s, 0);
      if g.owner[s].Some? && !ignore {
        var c := g.owner[s].value;
        if m1.choices[c] == 0 {
          AboveStays(g, grey, m1, s);
          EnterOwn(g, m1, s, c);
        }
        assert Colour(m1, ISym(s)) == 1;
        ChoiceComplete(g, m1, c, Some(s), entry);
        ChoiceAdvances(g, m1, c, Some(s));
        var m2 := VisitChoice(g, m1, c, Some(s)).0;
        assert Colour(m2, IChoice(c)) == 2;
        DepsInMore(g, s, m1.order, m2.order);
        FinishSymTidy(g, m2, s);
      } else {
        if ignore {
          var c := g.owner[s].value;
          assert Colour(grey, IChoice(c)) == 1 && Colour(m1, IChoice(c)) == 1;
          assert Seen(g, c, m1.cur[c], s);
        }
        FinishSymTidy(g, m1, s);
      }
    }
  }

  lemma PaintTidy(g: Graph, m: Marks, s: nat)
    requires GraphOk(g) && Tidy(g, m) && s < |g.owner| && m.syms[s] == 0
    ensures Tidy(g, Paint(m, ISym(s), 1))
  {
    var grey := Paint(m, ISym(s), 1);
    forall t | 0 <= t < |g.owner| && grey.syms[t] == 2 ensures SymTidy(g, grey, t) { SymTidyMore(g, m, grey, t); }
  }

  lemma EnterOwn(g: Graph, m: Marks, s: nat, c: nat)
    requires GraphOk(g) && Sized(g, m) && s < |g.owner| && g.owner[s] == Some(c) && Above(g, m, s) && m.choices[c] == 0
    ensures Entering(g, m, IChoice(c), None)
  {
    forall d | 0 <= d < |g.members| && m.choices[d] == 1 ensures ReachesBelow(g, m, d, IChoice(c)) {
      assert g.owner[g.members[d][m.cur[d]]] == Some(d);
    }
  }

  lemma {:induction false} DepsComplete(g: Graph, m: Marks, s: nat, i: nat, entry: seq<Option<nat>>)
    requires GraphOk(g) && NoBack(g, entry) && Tidy(g, m) && s < |g.deps| && i <= |g.deps[s]| && Above(g, m, s)
    requires forall j | 0 <= j < i :: Group(g, g.deps[s][j]) in m.order
    requires VisitDeps(g, m, s, i).1.NoLoop? && EntriesOf(VisitDeps(g, m, s, i).0, entry)
    ensures Tidy(g, VisitDeps(g, m, s, i).0) && DepsIn(g, s, VisitDeps(g, m, s, i).0.order)
    decreases White(m.syms, m.choices), 2 + |g.deps[s]| - i
  {
    if i < |g.deps[s]| {
      var d := g.deps[s][i];
      assert InGraph(g, d);
      AboveEnters(g, m, s, i);
      var r := VisitDep(g, m, d);
      DepsNext(g, m, s, i, r);
      EntriesBelow(r.0, VisitDeps(g, r.0, s, i + 1).0, entry);
      if d.ISym? { SymComplete(g, m, d.s, false, entry); } else { ChoiceComplete(g, m, d.c, None, entry); }
      DepAdvances(g, m, d);
      DepComplete(g, m, r.0, s, i, entry);
      DepsComplete(g, r.0, s, i + 1, entry);
    }
  }

  /** After the search of the i-th dependent. */
  lemma DepComplete(g: Graph, m: Marks, m': Marks, s: nat, i: nat, entry: seq<Option<nat>>)
    requires GraphOk(g) && NoBack(g, entry) && Sized(g, m) && s < |g.deps| && i < |g.deps[s]| && Above(g, m, s)
    requires forall j | 0 <= j < i :: Group(g, g.deps[s][j]) in m.order
    requires Tidy(g, m') && EntriesOf(m', entry) && Advances(m, m') && Later(m, m') && Colour(m', g.deps[s][i]) == 2
    ensures Above(g, m', s) && forall j | 0 <= j < i + 1 :: Group(g, g.deps[s][j]) in m'.order
  {
    AboveStays(g, m, m', s);
    DepSettled(g, m', s, i, entry);
    forall j | 0 <= j < i + 1 ensures Group(g, g.deps[s][j]) in m'.order {
      if j < i { assert Group(g, g.deps[s][j]) in m.order; }
    }
  }

  lemma {:induction false} ChoiceComplete(g: Graph, m: Marks, c: nat, skip: Option<nat>, entry: seq<Option<nat>>)
    requires GraphOk(g) && NoBack(g, entry) && Tidy(g, m) && c < |g.members|
    requires VisitChoice(g, m, c, skip).1.NoLoop? && EntriesOf(VisitChoice(g, m, c, skip).0, entry)
    requires m.choices[c] == 0 ==> Entering(g, m, IChoice(c), None)
    requires skip.Some? ==> DepsIn(g, skip.value, m.order) && Colour(m, ISym(skip.value)) == 1
    ensures Tidy(g, VisitChoice(g, m, c, skip).0)
    decreases White(m.syms, m.choices), 0
  {
    if m.choices[c] == 0 {
      var grey := Enter(m, c, skip);
      EnterFalls(m, c, skip);
      EnterTidy(g, m, c, skip);
      StackedEnter(g, m, c, skip);
      EnteringStays(g, m, grey, IChoice(c), Some(c));
      ChoiceEntered(g, m, c, skip, entry);
      MembersComplete(g, grey, c, skip, 0, entry);
      FinishChoiceTidy(g, VisitMembers(g, grey, c, skip, 0).0, c);
    }
  }

  /** No symbol of a new choice is finished. */
  lemma EnterTidy(g: Graph, m: Marks, c: nat, skip: Option<nat>)
    requires GraphOk(g) && Tidy(g, m) && c < |g.members| && m.choices[c] == 0
    ensures Tidy(g, Enter(m, c, skip)) && AllSeen(g, Enter(m, c, skip), c, 0)
  {
    var grey := Enter(m, c, skip);
    forall t | 0 <= t < |g.owner| && grey.syms[t] == 2 ensures SymTidy(g, grey, t) && g.owner[t] != Some(c) {
      assert SymTidy(g, m, t);
    }
  }

  /** Choice c is about to search its i-th symbol, and the earlier ones are finished. */
  ghost predicate MembersReady(g: Graph, m: Marks, c: nat, skip: Option<nat>, i: nat)
    requires GraphOk(g)
  {
    && Tidy(g, m) && c < |g.members| && i <= |g.members[c]| && m.choices[c] == 1 && m.entry[c] == skip
    && Entering(g, m, IChoice(c), Some(c)) && AllSeen(g, m, c, i) && MembersIn(g, c, i, m.order)
    && EntryGrey(m, c) && Passed(g, m, c, i) && (skip.Some? ==> DepsIn(g, skip.value, m.order))
  }

  lemma {:induction false} MembersComplete(g: Graph, m: Marks, c: nat, skip: Option<nat>, i: nat, entry: seq<Option<nat>>)
    requires GraphOk(g) && NoBack(g, entry) && MembersReady(g, m, c, skip, i)
    requires VisitMembers(g, m, c, skip, i).1.NoLoop? && EntriesOf(VisitMembers(g, m, c, skip, i).0, entry)
    ensures Tidy(g, VisitMembers(g, m, c, skip, i).0)
    ensures MembersIn(g, c, |g.members[c]|, VisitMembers(g, m, c, skip, i).0.order)
    decreases White(m.syms, m.choices), 2 + |g.members[c]| - i
  {
    if i < |g.members[c]| {
      var s := g.members[c][i];
      var at := m.(cur := m.cur[c := i]);
      MembersStep(g, m, c, skip, i, at, VisitMember(g, at, s, skip));
      AtMember(g, m, c, skip, i);
      if skip == Some(s) {
        MembersComplete(g, at, c, skip, i + 1, entry);
      } else {
        var m1 := VisitSym(g, at, s, true).0;
        EntriesBelow(m1, VisitMembers(g, m1, c, skip, i + 1).0, entry);
        SymComplete(g, at, s, true, entry);
        SymAdvances(g, at, s, true);
        NextMember(g, at, m1, c, skip, i);
        MembersComplete(g, m1, c, skip, i + 1, entry);
      }
    }
  }

  lemma EnteringStacked(g: Graph, m: Marks, b: Item, own: Option<nat>)
    requires GraphOk(g) && Sized(g, m) && Entering(g, m, b, own)
    ensures Stacked(g, m, own)
  {
  }

  lemma AtMember(g: Graph, m: Marks, c: nat, skip: Option<nat>, i: nat)
    requires GraphOk(g) && MembersReady(g, m, c, skip, i) && i < |g.members[c]|
    ensures var at, s := m.(cur := m.cur[c := i]), g.members[c][i];
      && MembersReady(g, at, c, skip, i)
      && if skip == Some(s) then MembersReady(g, at, c, skip, i + 1) else Current(g, at, s)
  {
    var at := m.(cur := m.cur[c := i]);
    assert forall z :: Colour(at, z) == Colour(m, z);
    MovedTidy(g, m, c, i);
    EnteringStacked(g, m, IChoice(c), Some(c));
    StackedMoved(g, m, c, i);
    EnteringStays(g, m, at, IChoice(c), Some(c));
    SeenMore(g, at, c, i);
  }

  lemma MovedTidy(g: Graph, m: Marks, c: nat, i: nat)
    requires GraphOk(g) && Tidy(g, m) && c < |g.members|
    requires AllSeen(g, m, c, i)
    ensures Tidy(g, m.(cur := m.cur[c := i]))
  {
    var at := m.(cur := m.cur[c := i]);
    forall t | 0 <= t < |g.owner| && at.syms[t] == 2 ensures SymTidy(g, at, t) { assert SymTidy(g, m, t); }
  }

  lemma SeenMore(g: Graph, m: Marks, c: nat, i: nat)
    requires Sized(g, m)
    requires AllSeen(g, m, c, i)
    ensures AllSeen(g, m, c, i + 1)
  {
    forall t | 0 <= t < |g.owner| && m.syms[t] == 2 && g.owner[t] == Some(c) ensures Seen(g, c, i + 1, t) {
      assert Seen(g, c, i, t);
    }
  }

  /** After the search of member i, choice c is ready for the next one. */
  lemma NextMember(g: Graph, at: Marks, m1: Marks, c: nat, skip: Option<nat>, i: nat)
    requires GraphOk(g) && MembersReady(g, at, c, skip, i) && i < |g.members[c]| && at.cur[c] == i
    requires Tidy(g, m1) && Advances(at, m1) && Later(at, m1) && Colour(m1, ISym(g.members[c][i])) == 2
    ensures MembersReady(g, m1, c, skip, i + 1)
  {
    assert Colour(at, IChoice(c)) == 1 && Colour(m1, IChoice(c)) == 1;
    EnteringStacked(g, at, IChoice(c), Some(c));
    StackedNext(g, at, m1, c, i);
    EnteringStays(g, at, m1, IChoice(c), Some(c));
    forall t | 0 <= t < |g.owner| && m1.syms[t] == 2 && g.owner[t] == Some(c) ensures Seen(g, c, i, t) {
      assert SymTidy(g, m1, t);
    }
    SeenMore(g, m1, c, i);
    forall j | 0 <= j < i + 1 ensures DepsIn(g, g.members[c][j], m1.order) {
      if j < i { DepsInMore(g, g.members[c][j], at.order, m1.order); } else { assert SymTidy(g, m1, g.members[c][i]); }
    }
    if skip.Some? { DepsInMore(g, skip.value, at.order, m1.order); }
  }

  // ---- The whole check ----

  function Start(g: Graph): Marks {
    Marks(seq(|g.owner|, _ => 0), seq(|g.members|, _ => 0), [], seq(|g.members|, _ => 0), seq(|g.members|, _ => None))
  }

  ghost function Check(g: Graph): (Marks, Outcome)
    requires GraphOk(g)
  {
    VisitAll(g, Start(g), 0)
  }

  ghost predicate Idle(m: Marks) {
    forall z :: Colour(m, z) != 1
  }

  /** With an idle call stack, there is nothing to ask of it. */
  lemma IdleReady(g: Graph, m: Marks, s: nat, entry: seq<Option<nat>>)
    requires GraphOk(g) && Sized(g, m) && Idle(m) && s < |g.owner|
    ensures Stacked(g, m, None) && Entering(g, m, Group(g, ISym(s)), None) && StackLeads(g, entry, m, ISym(s))
  {
    forall c | 0 <= c < |g.members| ensures m.choices[c] != 1 { assert Colour(m, IChoice(c)) != 1; }
  }

  lemma {:induction false} AllVisited(g: Graph, m: Marks, s: nat, entry: seq<Option<nat>>)
    requires GraphOk(g) && Sized(g, m) && Idle(m) && s <= |g.owner| && Sorted(g, m)
    requires forall t | 0 <= t < s :: m.syms[t] == 2
    requires EntriesOf(VisitAll(g, m, s).0, entry)
    ensures var (m', o) := VisitAll(g, m, s);
      && !o.Loop?
      && (o.Raised? ==> Cyclic(g) && ClosedPath(g, o.path) && SearchLoop(g, entry))
      && (o.NoLoop? ==> Idle(m') && Sorted(g, m') && forall t | 0 <= t < |g.owner| :: m'.syms[t] == 2)
      && (o.NoLoop? && NoBack(g, entry) && Tidy(g, m) ==> Tidy(g, m'))
    decreases |g.owner| - s
  {
    if s < |g.owner| {
      var (m1, o) := VisitSym(g, m, s, false);
      if !o.Raised? { EntriesBelow(m1, VisitAll(g, m1, s + 1).0, entry); }
      OneVisited(g, m, s, entry);
      if o.NoLoop? {
        OneMore(g, m, m1, s);
        AllVisited(g, m1, s + 1, entry);
      }
    }
  }

  lemma OneMore(g: Graph, m: Marks, m': Marks, s: nat)
    requires Sized(g, m) && Sized(g, m') && s < |g.owner| && Advances(m, m') && Colour(m', ISym(s)) == 2
    requires forall t | 0 <= t < s :: m.syms[t] == 2
    ensures forall t | 0 <= t < s + 1 :: m'.syms[t] == 2
  {
    forall t | 0 <= t < s + 1 ensures m'.syms[t] == 2 {
      if t < s { assert Colour(m, ISym(t)) == 2; }
      assert Colour(m', ISym(t)) == 2;
    }
  }

  lemma OneVisited(g: Graph, m: Marks, s: nat, entry: seq<Option<nat>>)
    requires GraphOk(g) && Sized(g, m) && Idle(m) && s < |g.owner| && Sorted(g, m)
    requires EntriesOf(VisitSym(g, m, s, false).0, entry)
    ensures var (m', o) := VisitSym(g, m, s, false);
      && !o.Loop?
      && (o.Raised? ==> Cyclic(g) && ClosedPath(g, o.path) && SearchLoop(g, entry))
      && (o.NoLoop? ==> Advances(m, m') && Idle(m') && Sorted(g, m') && Colour(m', ISym(s)) == 2)
      && (o.NoLoop? && NoBack(g, entry) && Tidy(g, m) ==> Tidy(g, m'))
  {
    IdleReady(g, m, s, entry);
    SymSound(g, m, s, false);
    SymReports(g, m, s, false, entry);
    if VisitSym(g, m, s, false).1.NoLoop? {
      SymAdvances(g, m, s, false);
      SymSorts(g, m, s, false);
      if NoBack(g, entry) && Tidy(g, m) { SymComplete(g, m, s, false, entry); }
    }
  }

  lemma Checked(g: Graph)
    requires GraphOk(g)
    ensures var (m, o) := Check(g);
      && !o.Loop?
      && (o.Raised? ==> Cyclic(g) && ClosedPath(g, o.path) && SearchLoop(g, m.entry))
      && (o.NoLoop? ==> Idle(m) && Sorted(g, m) && forall t | 0 <= t < |g.owner| :: m.syms[t] == 2)
      && (o.NoLoop? && NoBack(g, m.entry) ==> Tidy(g, m))
  {
    assert Idle(Start(g));
    AllVisited(g, Start(g), 0, Check(g).0.entry);
  }

  // ---- The order of the finished groups ranks the items ----

  function PosOf(order: seq<Item>, z: Item): (p: nat)
    ensures p <= |order|
    ensures p < |order| ==> order[p] == z
    ensures z in order ==> p < |order|
    ensures forall j | 0 <= j < p :: order[j] != z
  {
    if order == [] || order[0] == z then 0 else 1 + PosOf(order[1..], z)
  }

  lemma PosBefore(order: seq<Item>, p: nat, z: Item)
    requires p <= |order| && z in order[..p]
    ensures PosOf(order, z) < p
  {
    var i :| 0 <= i < p && order[i] == z;
  }

  /** Distance from the end: dependents come first in the order, so they rank higher. */
  function RankOf(g: Graph, order: seq<Item>, z: Item): nat {
    |order| - PosOf(order, Group(g, z))
  }

  /** Every dependent of a symbol ranks above the symbol; a choice and its symbols rank alike. */
  ghost predicate RanksDeps(g: Graph, order: seq<Item>) {
    forall s, i | 0 <= s < |g.deps| && 0 <= i < |g.deps[s]| :: RankOf(g, order, ISym(s)) < RankOf(g, order, g.deps[s][i])
  }

  lemma OrderRanks(g: Graph, m: Marks)
    requires GraphOk(g) && Tidy(g, m) && Idle(m) && forall t | 0 <= t < |g.owner| :: m.syms[t] == 2
    ensures RanksDeps(g, m.order)
  {
    forall s, i | 0 <= s < |g.deps| && 0 <= i < |g.deps[s]|
      ensures RankOf(g, m.order, ISym(s)) < RankOf(g, m.order, g.deps[s][i])
    {
      var a := Group(g, ISym(s));
      assert SymTidy(g, m, s);
      if g.owner[s].Some? { assert Colour(m, a) != 1; }
      assert a in m.order;
      var p := PosOf(m.order, a);
      assert DepsIn(g, s, m.order[..p]);
      assert Group(g, g.deps[s][i]) in m.order[..p];
      PosBefore(m.order, p, Group(g, g.deps[s][i]));
    }
  }

  lemma RankedAcyclic(g: Graph, order: seq<Item>)
    requires GraphOk(g) && RanksDeps(g, order)
    ensures !Cyclic(g)
  {
    var f := z => PosOf(order, z);
    forall a, b | Edge(g, a, b) ensures f(b) < f(a) {
      var s: nat, i: nat :| EdgeAt(g, s, i, a, b);
      assert RankOf(g, order, ISym(s)) < RankOf(g, order, g.deps[s][i]);
    }
    FallingNoLoop(Groups(g), f);
  }

  // ---- Main results ----

  /** Passing the check ranks the items, unless a path leads back to an earlier symbol of a choice. */
  lemma PassedRanks(g: Graph)
    requires GraphOk(g) && NoBack(g, Check(g).0.entry) && Check(g).1.NoLoop?
    ensures RanksDeps(g, Check(g).0.order)
  {
    Checked(g);
    OrderRanks(g, Check(g).0);
  }

  /** The check reports a loop if and only if there is one in what the search compares. */
  lemma CheckDecides(g: Graph)
    requires GraphOk(g)
    ensures Check(g).1.Raised? <==> SearchLoop(g, Check(g).0.entry)
  {
    Checked(g);
    if Check(g).1.NoLoop? { SortedNoLoop(g, Check(g).0); }
  }

  /**
    A reported loop is a real one.  The check is right about a graph if and only if
    no path leads back inside a choice, past its entry, or the search finds a loop
    as well: the graphs with such a path and no other loop are the ones it misses.
   */
  lemma CheckExact(g: Graph)
    requires GraphOk(g)
    ensures !Check(g).1.Loop?
    ensures Check(g).1.Raised? ==> Cyclic(g) && ClosedPath(g, Check(g).1.path)
    ensures var entry := Check(g).0.entry;
      (Check(g).1.Raised? <==> Cyclic(g)) <==> NoBack(g, entry) || SearchLoop(g, entry)
  {
    var entry := Check(g).0.entry;
    Checked(g);
    CheckDecides(g);
    if NoBack(g, entry) && Check(g).1.NoLoop? {
      PassedRanks(g);
      RankedAcyclic(g, Check(g).0.order);
    }
    if !NoBack(g, entry) {
      var c, l, m, z :| BackAt(g, entry, c, l, m, z);
      BackIsCycle(g, entry, c, l, m, z);
    }
  }

  /** Whichever symbols enter the choices: without any path back inside a choice the check is right. */
  lemma NoBackAtAll(g: Graph)
    requires GraphOk(g) && NoBack(g, Start(g).entry)
    ensures Check(g).1.Raised? <==> Cyclic(g)
  {
    var entry := Check(g).0.entry;
    forall c, l, m, z ensures !BackAt(g, entry, c, l, m, z) {
      assert !BackAt(g, Start(g).entry, c, l, m, z);
    }
    CheckExact(g);
  }

  /** The check as it runs: colours on the items, calls down the dependents. */
  class LoopChecker {
    const g: Graph
    var syms: seq<Shade>
    var choices: seq<Shade>
    ghost var order: seq<Item>
    ghost var cur: seq<nat>
    ghost var entry: seq<Option<nat>>

    ghost function Now(): Marks
      reads this
    {
      Marks(syms, choices, order, cur, entry)
    }

    constructor (g: Graph)
      ensures this.g == g && Now() == Start(g)
    {
      this.g := g;
      syms, choices := seq(|g.owner|, _ => 0), seq(|g.members|, _ => 0);
      order, cur, entry := [], seq(|g.members|, _ => 0), seq(|g.members|, _ => None);
    }

    method CheckSym(s: nat, ignore: bool) returns (r: Outcome)
      requires GraphOk(g) && Sized(g, Now()) && s < |g.owner|
      modifies this
      ensures (Now(), r) == VisitSym(g, old(Now()), s, ignore)
      decreases White(syms, choices), 0
    {
      if syms[s] == 2 { return NoLoop; }
      if syms[s] == 1 { return Loop([ISym(s)]); }
      PaintFalls(Now(), ISym(s), 1);
      syms := syms[s := 1];
      r := CheckDeps(s);
      if !r.NoLoop? { return Found(r, ISym(s)); }
      if g.owner[s].Some? && !ignore {
        r := CheckChoice(g.owner[s].value, Some(s));
        if !r.NoLoop? { return Found(r, ISym(s)); }
      }
      syms := syms[s := 2];
      order := order + [ISym(s)];
      r := NoLoop;
    }

    /** The loop over the dependents of s. */
    method CheckDeps(s: nat) returns (r: Outcome)
      requires GraphOk(g) && Sized(g, Now()) && s < |g.owner|
      modifies this
      ensures (Now(), r) == VisitDeps(g, old(Now()), s, 0)
      decreases White(syms, choices), 1
    {
      var i := 0;
      r := NoLoop;
      ghost var all := VisitDeps(g, Now(), s, 0);
      while i < |g.deps[s]|
        invariant 0 <= i <= |g.deps[s]| && Sized(g, Now())
        invariant White(syms, choices) <= old(White(syms, choices))
        invariant r.NoLoop? && VisitDeps(g, Now(), s, i) == all
      {
        assert InGraph(g, g.deps[s][i]);
        DepsNext(g, Now(), s, i, VisitDep(g, Now(), g.deps[s][i]));
        match g.deps[s][i] {
          case ISym(d) => r := CheckSym(d, false);
          case IChoice(c) => r := CheckChoice(c, None);
        }
        if !r.NoLoop? { return; }
        i := i + 1;
      }
    }

    method CheckChoice(c: nat, skip: Option<nat>) returns (r: Outcome)
      requires GraphOk(g) && Sized(g, Now()) && c < |g.members|
      modifies this
      ensures (Now(), r) == VisitChoice(g, old(Now()), c, skip)
      decreases White(syms, choices), 0
    {
      if choices[c] == 2 { return NoLoop; }
      if choices[c] == 1 { return Loop([IChoice(c)]); }
      EnterFalls(Now(), c, skip);
      choices, entry := choices[c := 1], entry[c := skip];
      r := CheckMembers(c, skip);
      if !r.NoLoop? { return Found(r, IChoice(c)); }
      choices := choices[c := 2];
      order := order + [IChoice(c)];
      r := NoLoop;
    }

    /** The loop over the symbols of choice c. */
    method CheckMembers(c: nat, skip: Option<nat>) returns (r: Outcome)
      requires GraphOk(g) && Sized(g, Now()) && c < |g.members|
      modifies this
      ensures (Now(), r) == VisitMembers(g, old(Now()), c, skip, 0)
      decreases White(syms, choices), 1
    {
      var i := 0;
      r := NoLoop;
      ghost var all := VisitMembers(g, Now(), c, skip, 0);
      while i < |g.members[c]|
        invariant 0 <= i <= |g.members[c]| && Sized(g, Now())
        invariant White(syms, choices) <= old(White(syms, choices))
        invariant r.NoLoop? && VisitMembers(g, Now(), c, skip, i) == all
      {
        ghost var before := Now();
        cur := cur[c := i];
        MembersStep(g, before, c, skip, i, Now(), VisitMember(g, Now(), g.members[c][i], skip));
        if skip != Some(g.members[c][i]) {
          r := CheckSym(g.members[c][i], true);
          if !r.NoLoop? { return; }
        }
        i := i + 1;
      }
    }

    method CheckAll() returns (r: Outcome)
      requires GraphOk(g) && Sized(g, Now())
      modifies this
      ensures (Now(), r) == VisitAll(g, old(Now()), 0)
    {
      var s := 0;
      while s < |g.owner|
        invariant 0 <= s <= |g.owner| && Sized(g, Now())
        invariant VisitAll(g, Now(), s) == VisitAll(g, old(Now()), 0)
      {
        r := CheckSym(s, false);
        if r.Raised? { return r; }
        s := s + 1;
      }
      r := NoLoop;
    }
  }

  method CheckTree(g: Graph) returns (r: Outcome)
    requires GraphOk(g)
    ensures !r.Loop?
    ensures r.Raised? ==> Cyclic(g) && ClosedPath(g, r.path)
    ensures var entry := Check(g).0.entry;
      && (r.Raised? <==> SearchLoop(g, entry))
      && ((r.Raised? <==> Cyclic(g)) <==> NoBack(g, entry) || SearchLoop(g, entry))
    ensures r == Check(g).1
  {
    var checker := new LoopChecker(g);
    r := checker.CheckAll();
    CheckDecides(g);
    CheckExact(g);
  }

  // ---- A loop that is missed ----

  /** Symbols X, B, A of one choice, and D: D depends on A, and B depends on D. */
  function MissedGraph(): (g: Graph)
    ensures GraphOk(g)
  {
    Graph([Some(0), Some(0), Some(0), None], [[0, 1, 2]], [[], [], [ISym(3)], [ISym(1)]])
  }

  lemma DepLoopMissed()
    ensures Cyclic(MissedGraph()) && Check(MissedGraph()).1.NoLoop?
  {
    var g := MissedGraph();
    ReachSelf(Groups(g), ISym(3));
    assert EdgeAt(g, 2, 0, IChoice(0), ISym(3)) && EdgeAt(g, 3, 0, ISym(3), IChoice(0));
    ReachStep(Groups(g), ISym(3), ISym(3), IChoice(0));
    assert Plus(Groups(g), IChoice(0), IChoice(0));
    MissedSearch();
  }

  function MissedAt(x: Shade, b: Shade, a: Shade, d: Shade, c: Shade, order: seq<Item>, at: nat): Marks {
    Marks([x, b, a, d], [c], order, [at], [if c == 0 then None else Some(0)])
  }

  /** B is searched first and finished. */
  lemma MissedB()
    ensures VisitSym(MissedGraph(), MissedAt(1, 0, 0, 0, 1, [], 1), 1, true) ==
            (MissedAt(1, 2, 0, 0, 1, [ISym(1)], 1), NoLoop)
  {
    var g := MissedGraph();
    var grey := MissedAt(1, 1, 0, 0, 1, [], 1);
    assert Paint(MissedAt(1, 0, 0, 0, 1, [], 1), ISym(1), 1) == grey;
    assert FinishSym(grey, 1) == MissedAt(1, 2, 0, 0, 1, [ISym(1)], 1);
    NoDeps(g, grey, 1);
  }

  /** Then D is reached from A, and B no longer counts. */
  lemma MissedD()
    ensures VisitSym(MissedGraph(), MissedAt(1, 2, 1, 0, 1, [ISym(1)], 2), 3, false) ==
            (MissedAt(1, 2, 1, 2, 1, [ISym(1), ISym(3)], 2), NoLoop)
  {
    var g := MissedGraph();
    var atD := MissedAt(1, 2, 1, 1, 1, [ISym(1)], 2);
    assert Paint(MissedAt(1, 2, 1, 0, 1, [ISym(1)], 2), ISym(3), 1) == atD;
    assert FinishSym(atD, 3) == MissedAt(1, 2, 1, 2, 1, [ISym(1), ISym(3)], 2);
    assert VisitSym(g, atD, 1, false) == (atD, NoLoop);
    assert VisitDeps(g, atD, 3, 1) == (atD, NoLoop);
    assert VisitDeps(g, atD, 3, 0) == (atD, NoLoop);
  }

  lemma MissedA()
    ensures VisitSym(MissedGraph(), MissedAt(1, 2, 0, 0, 1, [ISym(1)], 2), 2, true) ==
            (MissedAt(1, 2, 2, 2, 1, [ISym(1), ISym(3), ISym(2)], 2), NoLoop)
  {
    var g := MissedGraph();
    var grey, afterD := MissedAt(1, 2, 1, 0, 1, [ISym(1)], 2), MissedAt(1, 2, 1, 2, 1, [ISym(1), ISym(3)], 2);
    assert Paint(MissedAt(1, 2, 0, 0, 1, [ISym(1)], 2), ISym(2), 1) == grey;
    assert FinishSym(afterD, 2) == MissedAt(1, 2, 2, 2, 1, [ISym(1), ISym(3), ISym(2)], 2);
    MissedD();
    assert VisitDeps(g, afterD, 2, 1) == (afterD, NoLoop);
    assert VisitDeps(g, grey, 2, 0) == (afterD, NoLoop);
  }

  lemma MissedMembers()
    ensures VisitMembers(MissedGraph(), MissedAt(1, 0, 0, 0, 1, [], 0), 0, Some(0), 0) ==
            (MissedAt(1, 2, 2, 2, 1, [ISym(1), ISym(3), ISym(2)], 2), NoLoop)
  {
    var g := MissedGraph();
    var m0 := MissedAt(1, 0, 0, 0, 1, [], 0);
    assert m0.(cur := m0.cur[0 := 0]) == m0;
    MembersStep(g, m0, 0, Some(0), 0, m0, (m0, NoLoop));
    MissedAfterX();
  }

  lemma MissedAfterX()
    ensures VisitMembers(MissedGraph(), MissedAt(1, 0, 0, 0, 1, [], 0), 0, Some(0), 1) ==
            (MissedAt(1, 2, 2, 2, 1, [ISym(1), ISym(3), ISym(2)], 2), NoLoop)
  {
    var g, m0, at := MissedGraph(), MissedAt(1, 0, 0, 0, 1, [], 0), MissedAt(1, 0, 0, 0, 1, [], 1);
    assert m0.(cur := m0.cur[0 := 1]) == at;
    MissedB();
    MembersStep(g, m0, 0, Some(0), 1, at, VisitMember(g, at, 1, Some(0)));
    MissedAfterB();
  }

  lemma MissedAfterB()
    ensures VisitMembers(MissedGraph(), MissedAt(1, 2, 0, 0, 1, [ISym(1)], 1), 0, Some(0), 2) ==
            (MissedAt(1, 2, 2, 2, 1, [ISym(1), ISym(3), ISym(2)], 2), NoLoop)
  {
    var g, m1, at := MissedGraph(), MissedAt(1, 2, 0, 0, 1, [ISym(1)], 1), MissedAt(1, 2, 0, 0, 1, [ISym(1)], 2);
    assert m1.(cur := m1.cur[0 := 2]) == at;
    MissedA();
    MembersStep(g, m1, 0, Some(0), 2, at, VisitMember(g, at, 2, Some(0)));
  }

  /** X enters the choice. */
  lemma MissedX()
    ensures var order := [ISym(1), ISym(3), ISym(2), IChoice(0)];
      VisitChoice(MissedGraph(), MissedAt(1, 0, 0, 0, 0, [], 0), 0, Some(0)) == (MissedAt(1, 2, 2, 2, 2, order, 2), NoLoop)
  {
    var m1, m2 := MissedAt(1, 0, 0, 0, 0, [], 0), MissedAt(1, 2, 2, 2, 1, [ISym(1), ISym(3), ISym(2)], 2);
    assert Enter(m1, 0, Some(0)) == MissedAt(1, 0, 0, 0, 1, [], 0);
    MissedMembers();
    assert FinishChoice(m2, 0) == MissedAt(1, 2, 2, 2, 2, [ISym(1), ISym(3), ISym(2), IChoice(0)], 2);
  }

  lemma MissedVisit()
    ensures VisitSym(MissedGraph(), MissedAt(0, 0, 0, 0, 0, [], 0), 0, false) ==
            (MissedAt(2, 2, 2, 2, 2, [ISym(1), ISym(3), ISym(2), IChoice(0), ISym(0)], 2), NoLoop)
  {
    var g := MissedGraph();
    var order := [ISym(1), ISym(3), ISym(2), IChoice(0)];
    var m1, m3 := MissedAt(1, 0, 0, 0, 0, [], 0), MissedAt(1, 2, 2, 2, 2, order, 2);
    assert Paint(MissedAt(0, 0, 0, 0, 0, [], 0), ISym(0), 1) == m1;
    NoDeps(g, m1, 0);
    MissedX();
    assert order + [ISym(0)] == [ISym(1), ISym(3), ISym(2), IChoice(0), ISym(0)];
    assert FinishSym(m3, 0) == MissedAt(2, 2, 2, 2, 2, order + [ISym(0)], 2);
  }

  /** B is finished before the search of A comes back to it through D. */
  lemma MissedSearch()
    ensures Check(MissedGraph()).1.NoLoop?
  {
    MissedVisit();
    MissedStart();
    OneSearch(MissedGraph(), MissedAt(0, 0, 0, 0, 0, [], 0), VisitSym(MissedGraph(), MissedAt(0, 0, 0, 0, 0, [], 0), 0, false).0);
  }

  lemma MissedStart()
    ensures Start(MissedGraph()) == MissedAt(0, 0, 0, 0, 0, [], 0)
  {
  }

  /** The search of the first symbol may be all there is to do. */
  lemma OneSearch(g: Graph, m: Marks, m': Marks)
    requires GraphOk(g) && Sized(g, m) && g.owner != [] && VisitSym(g, m, 0, false) == (m', NoLoop)
    requires forall t | 0 <= t < |g.owner| :: m'.syms[t] == 2
    ensures VisitAll(g, m, 0) == (m', NoLoop)
  {
    AllDone(g, m', 1);
  }

  lemma NoDeps(g: Graph, m: Marks, s: nat)
    requires GraphOk(g) && Sized(g, m) && s < |g.deps| && g.deps[s] == []
    ensures VisitDeps(g, m, s, 0) == (m, NoLoop)
  {
  }

  /** Nothing is left to do once all symbols are finished. */
  lemma {:induction false} AllDone(g: Graph, m: Marks, s: nat)
    requires GraphOk(g) && Sized(g, m) && s <= |g.owner| && forall t | 0 <= t < |g.owner| :: m.syms[t] == 2
    ensures VisitAll(g, m, s) == (m, NoLoop)
    decreases |g.owner| - s
  {
    if s < |g.owner| { AllDone(g, m, s + 1); }
  }
}
