/**
  The search for dependency loops: depth-first, with three colours, over the
  dependents of symbols.  A choice and its symbols hang together.  The recursion
  is a function of the colours here; DepLoop has the code and what it finds.
 */
module DepSearch {
  import opened Common
  import opened KconfigModel

  /** deps[s] lists the items that depend on symbol s, in the order the search visits them. */
  datatype Graph = Graph(owner: seq<Option<nat>>, members: seq<seq<nat>>, deps: seq<seq<Item>>)

  predicate InGraph(g: Graph, z: Item) {
    match z
    case ISym(s) => s < |g.owner|
    case IChoice(c) => c < |g.members|
  }

  ghost predicate GraphOk(g: Graph) {
    && |g.deps| == |g.owner|
    && (forall s | 0 <= s < |g.owner| && g.owner[s].Some? ::
          g.owner[s].value < |g.members| && s in g.members[g.owner[s].value])
    && (forall c, i | 0 <= c < |g.members| && 0 <= i < |g.members[c]| ::
          g.members[c][i] < |g.owner| && g.owner[g.members[c][i]] == Some(c))
    && (forall s, i | 0 <= s < |g.deps| && 0 <= i < |g.deps[s]| :: InGraph(g, g.deps[s][i]))
  }

  // ---- Walks between groups ----

  /** The group of an item: a choice for itself and its symbols, otherwise the symbol. */
  function Group(g: Graph, z: Item): Item {
    match z
    case ISym(s) => if s < |g.owner| && g.owner[s].Some? then IChoice(g.owner[s].value) else z
    case IChoice(_) => z
  }

  ghost predicate Edge(g: Graph, a: Item, b: Item) {
    exists s: nat, i: nat :: EdgeAt(g, s, i, a, b)
  }

  predicate EdgeAt(g: Graph, s: nat, i: nat, a: Item, b: Item) {
    s < |g.deps| && i < |g.deps[s]| && Group(g, ISym(s)) == a && Group(g, g.deps[s][i]) == b
  }

  type Relation = (Item, Item) -> bool

  ghost function Groups(g: Graph): Relation {
    (a, b) => Edge(g, a, b)
  }

  ghost predicate Walk(r: Relation, p: seq<Item>) {
    p != [] && forall i | 0 <= i < |p| - 1 :: r(p[i], p[i + 1])
  }

  /** b can be reached from a in zero or more steps. */
  ghost predicate Reach(r: Relation, a: Item, b: Item) {
    exists p :: Walk(r, p) && p[0] == a && p[|p| - 1] == b
  }

  /** b can be reached from a in one or more steps. */
  ghost predicate Plus(r: Relation, a: Item, b: Item) {
    exists x :: r(a, x) && Reach(r, x, b)
  }

  ghost predicate HasLoop(r: Relation) {
    exists a :: Plus(r, a, a)
  }

  ghost predicate Cyclic(g: Graph) {
    HasLoop(Groups(g))
  }

  lemma ReachSelf(r: Relation, a: Item)
    ensures Reach(r, a, a)
  {
    assert Walk(r, [a]) && [a][0] == a;
  }

  lemma ReachStep(r: Relation, a: Item, b: Item, c: Item)
    requires Reach(r, a, b) && r(b, c)
    ensures Reach(r, a, c) && Plus(r, a, c)
  {
    var p :| Walk(r, p) && p[0] == a && p[|p| - 1] == b;
    var q := p + [c];
    assert Walk(r, q) && q[|q| - 1] == c;
    if |p| == 1 {
      ReachSelf(r, c);
    } else {
      assert q[1..][0] == p[1] && Walk(r, q[1..]) && q[1..][|q| - 2] == c;
    }
  }

  lemma PlusReach(r: Relation, a: Item, b: Item)
    requires Plus(r, a, b)
    ensures Reach(r, a, b)
  {
    var x :| r(a, x) && Reach(r, x, b);
    var p :| Walk(r, p) && p[0] == x && p[|p| - 1] == b;
    var q := [a] + p;
    forall i | 0 <= i < |q| - 1 ensures r(q[i], q[i + 1]) {
      if i > 0 { assert r(p[i - 1], p[i - 1 + 1]); }
    }
    assert Walk(r, q) && q[0] == a && q[|q| - 1] == b;
  }

  lemma {:induction false} WalkFalls(r: Relation, f: Item -> nat, p: seq<Item>)
    requires (forall a, b | r(a, b) :: f(b) < f(a)) && Walk(r, p)
    ensures f(p[|p| - 1]) <= f(p[0])
  {
    if |p| > 1 {
      var q := p[..|p| - 1];
      forall i | 0 <= i < |q| - 1 ensures r(q[i], q[i + 1]) { assert r(p[i], p[i + 1]); }
      WalkFalls(r, f, q);
      assert r(p[|p| - 2], p[|p| - 2 + 1]);
    }
  }

  /** A relation along which a number falls has no loop. */
  lemma FallingNoLoop(r: Relation, f: Item -> nat)
    requires forall a, b | r(a, b) :: f(b) < f(a)
    ensures !HasLoop(r)
  {
    if HasLoop(r) {
      var a :| Plus(r, a, a);
      var x :| r(a, x) && Reach(r, x, a);
      var p :| Walk(r, p) && p[0] == x && p[|p| - 1] == a;
      WalkFalls(r, f, p);
    }
  }

  // ---- Paths back to an earlier symbol of a choice ----

  /** A walk starts with a dependent of symbol s and reaches group b. */
  ghost predicate Leaves(g: Graph, s: nat, b: Item) {
    exists i | s < |g.deps| && 0 <= i < |g.deps[s]| :: Reach(Groups(g), Group(g, g.deps[s][i]), b)
  }

  /** z is s, or lies in a group that a walk from s reaches. */
  ghost predicate From(g: Graph, s: nat, z: nat) {
    z == s || Leaves(g, s, Group(g, ISym(z)))
  }

  /**
    The earlier symbol l of choice c depends, possibly indirectly, on the later
    symbol m; neither is the one that the choice was entered by.
   */
  ghost predicate BackAt(g: Graph, entry: seq<Option<nat>>, c: nat, l: nat, m: nat, z: nat) {
    && c < |g.members| && c < |entry| && l < m < |g.members[c]| && z < |g.deps|
    && entry[c] != Some(g.members[c][l]) && entry[c] != Some(g.members[c][m])
    && From(g, g.members[c][m], z) && ISym(g.members[c][l]) in g.deps[z]
  }

  ghost predicate NoBack(g: Graph, entry: seq<Option<nat>>) {
    forall c, l, m, z :: !BackAt(g, entry, c, l, m, z)
  }

  /** Such a path is itself a loop. */
  lemma BackIsCycle(g: Graph, entry: seq<Option<nat>>, c: nat, l: nat, m: nat, z: nat)
    requires GraphOk(g) && BackAt(g, entry, c, l, m, z)
    ensures Cyclic(g)
  {
    var s, t := g.members[c][m], g.members[c][l];
    var j :| 0 <= j < |g.deps[z]| && g.deps[z][j] == ISym(t);
    assert EdgeAt(g, z, j, Group(g, ISym(z)), IChoice(c));
    if z == s {
      ReachSelf(Groups(g), IChoice(c));
    } else {
      var i :| 0 <= i < |g.deps[s]| && Reach(Groups(g), Group(g, g.deps[s][i]), Group(g, ISym(z)));
      assert EdgeAt(g, s, i, IChoice(c), Group(g, g.deps[s][i]));
      ReachStep(Groups(g), Group(g, g.deps[s][i]), Group(g, ISym(z)), IChoice(c));
    }
    assert Plus(Groups(g), IChoice(c), IChoice(c));
  }

  lemma FromStep(g: Graph, s: nat, z: nat, i: nat)
    requires s < |g.deps| && z < |g.deps| && i < |g.deps[z]| && From(g, s, z)
    ensures Leaves(g, s, Group(g, g.deps[z][i]))
  {
    var b := Group(g, g.deps[z][i]);
    if z == s {
      ReachSelf(Groups(g), b);
    } else {
      var j :| 0 <= j < |g.deps[s]| && Reach(Groups(g), Group(g, g.deps[s][j]), Group(g, ISym(z)));
      assert EdgeAt(g, z, i, Group(g, ISym(z)), b);
      ReachStep(Groups(g), Group(g, g.deps[s][j]), Group(g, ISym(z)), b);
    }
  }

  // ---- The search ----

  type Shade = n: nat | n <= 2

  /** Loop(path) is a loop still being collected on the way back; Raised(path) is the error that reports it. */
  datatype Outcome = NoLoop | Loop(path: seq<Item>) | Raised(path: seq<Item>)

  /**
    Colours (0 new, 1 on the call stack, 2 finished).  For the proof only: the
    finished items, in order, the position each choice has reached, and the symbol
    that each choice was entered by.
   */
  datatype Marks = Marks(syms: seq<Shade>, choices: seq<Shade>, order: seq<Item>, cur: seq<nat>, entry: seq<Option<nat>>)

  function Colour(m: Marks, z: Item): Shade {
    match z
    case ISym(s) => if s < |m.syms| then m.syms[s] else 0
    case IChoice(c) => if c < |m.choices| then m.choices[c] else 0
  }

  ghost predicate Sized(g: Graph, m: Marks) {
    |m.syms| == |g.owner| && |m.choices| == |g.members| == |m.cur| == |m.entry|
  }

  predicate Marked(m: Marks, z: Item) {
    match z
    case ISym(s) => s < |m.syms|
    case IChoice(c) => c < |m.choices|
  }

  function White(syms: seq<Shade>, choices: seq<Shade>): set<Item> {
    (set s | 0 <= s < |syms| && syms[s] == 0 :: ISym(s)) + (set c | 0 <= c < |choices| && choices[c] == 0 :: IChoice(c))
  }

  function Paint(m: Marks, z: Item, colour: Shade): Marks {
    match z
    case ISym(s) => if s < |m.syms| then m.(syms := m.syms[s := colour]) else m
    case IChoice(c) => if c < |m.choices| then m.(choices := m.choices[c := colour]) else m
  }

  lemma PaintFalls(m: Marks, z: Item, colour: Shade)
    requires 0 < colour
    ensures var p := Paint(m, z, colour);
      && White(p.syms, p.choices) <= White(m.syms, m.choices)
      && (Marked(m, z) && Colour(m, z) == 0 ==>
            White(p.syms, p.choices) < White(m.syms, m.choices))
  {
    var p := Paint(m, z, colour);
    if Marked(m, z) && Colour(m, z) == 0 {
      assert z in White(m.syms, m.choices) && z !in White(p.syms, p.choices);
    }
  }

  lemma EnterFalls(m: Marks, c: nat, skip: Option<nat>)
    requires Marked(m, IChoice(c)) && Colour(m, IChoice(c)) == 0
    ensures var p := Enter(m, c, skip); White(p.syms, p.choices) < White(m.syms, m.choices)
    ensures forall z :: Colour(Enter(m, c, skip), z) == if z == IChoice(c) then 1 else Colour(m, z)
  {
    PaintFalls(m, IChoice(c), 1);
    assert Enter(m, c, skip).choices == Paint(m, IChoice(c), 1).choices;
  }

  /** What a caller makes of the outcome of a call made while searching z. */
  function Found(o: Outcome, z: Item): Outcome {
    if o.Loop? && o.path != [] && o.path[0] == z then Raised(o.path)
    else if o.Loop? then Loop(o.path + [z])
    else o
  }

  function FinishSym(m: Marks, s: nat): Marks {
    var p := Paint(m, ISym(s), 2);
    p.(order := p.order + [ISym(s)])
  }

  /** The search of choice c starts; it was entered by symbol `skip`, if any. */
  function Enter(m: Marks, c: nat, skip: Option<nat>): Marks {
    Paint(if c < |m.entry| then m.(entry := m.entry[c := skip]) else m, IChoice(c), 1)
  }

  function FinishChoice(m: Marks, c: nat): Marks {
    var p := Paint(m, IChoice(c), 2);
    p.(order := p.order + [IChoice(c)])
  }

  /** Nothing becomes new again, and the entry of a choice stays once the choice is on the call stack. */
  ghost predicate Later(m: Marks, m': Marks) {
    && White(m'.syms, m'.choices) <= White(m.syms, m.choices)
    && |m'.choices| == |m.choices| && |m'.entry| == |m.entry|
    && forall c | 0 <= c < |m.choices| && c < |m.entry| && m.choices[c] != 0 :: m'.choices[c] != 0 && m'.entry[c] == m.entry[c]
  }

  ghost function VisitSym(g: Graph, m: Marks, s: nat, ignore: bool): (r: (Marks, Outcome))
    requires GraphOk(g) && Sized(g, m) && s < |g.owner|
    ensures Sized(g, r.0) && Later(m, r.0)
    decreases White(m.syms, m.choices), 0
  {
    if m.syms[s] == 0 then
      var grey := Paint(m, ISym(s), 1);
      PaintFalls(m, ISym(s), 1);
      var (m1, o1) := VisitDeps(g, grey, s, 0);
      if !o1.NoLoop? then (m1, Found(o1, ISym(s)))
      else if g.owner[s].Some? && !ignore then
        var (m2, o2) := VisitChoice(g, m1, g.owner[s].value, Some(s));
        PaintFalls(m2, ISym(s), 2);
        if !o2.NoLoop? then (m2, Found(o2, ISym(s))) else (FinishSym(m2, s), NoLoop)
      else
        PaintFalls(m1, ISym(s), 2);
        (FinishSym(m1, s), NoLoop)
    else (m, if m.syms[s] == 2 then NoLoop else Loop([ISym(s)]))
  }

  /** The dependents of s, from the i-th on. */
  ghost function VisitDeps(g: Graph, m: Marks, s: nat, i: nat): (r: (Marks, Outcome))
    requires GraphOk(g) && Sized(g, m) && s < |g.deps| && i <= |g.deps[s]|
    ensures Sized(g, r.0) && Later(m, r.0)
    decreases White(m.syms, m.choices), 2 + |g.deps[s]| - i
  {
    if i == |g.deps[s]| then (m, NoLoop)
    else
      var d := g.deps[s][i];
      assert InGraph(g, d);
      var (m1, o) := VisitDep(g, m, d);
      if o.NoLoop? then VisitDeps(g, m1, s, i + 1) else (m1, o)
  }

  /** A dependent of a symbol. */
  ghost function VisitDep(g: Graph, m: Marks, d: Item): (r: (Marks, Outcome))
    requires GraphOk(g) && Sized(g, m) && InGraph(g, d)
    ensures Sized(g, r.0) && Later(m, r.0)
    decreases White(m.syms, m.choices), 1
  {
    if d.ISym? then VisitSym(g, m, d.s, false) else VisitChoice(g, m, d.c, None)
  }

  lemma DepsNext(g: Graph, m: Marks, s: nat, i: nat, r: (Marks, Outcome))
    requires GraphOk(g) && Sized(g, m) && s < |g.deps| && i < |g.deps[s]|
    requires r == VisitDep(g, m, g.deps[s][i])
    ensures VisitDeps(g, m, s, i) == if r.1.NoLoop? then VisitDeps(g, r.0, s, i + 1) else r
  {
  }

  ghost function VisitChoice(g: Graph, m: Marks, c: nat, skip: Option<nat>): (r: (Marks, Outcome))
    requires GraphOk(g) && Sized(g, m) && c < |g.members|
    ensures Sized(g, r.0) && Later(m, r.0)
    decreases White(m.syms, m.choices), 0
  {
    if m.choices[c] == 0 then
      var grey := Enter(m, c, skip);
      EnterFalls(m, c, skip);
      var (m1, o) := VisitMembers(g, grey, c, skip, 0);
      PaintFalls(m1, IChoice(c), 2);
      if o.NoLoop? then (FinishChoice(m1, c), NoLoop) else (m1, Found(o, IChoice(c)))
    else (m, if m.choices[c] == 2 then NoLoop else Loop([IChoice(c)]))
  }

  /** The symbols of choice c, from the i-th on, except the one it was entered by. */
  ghost function VisitMembers(g: Graph, m: Marks, c: nat, skip: Option<nat>, i: nat): (r: (Marks, Outcome))
    requires GraphOk(g) && Sized(g, m) && c < |g.members| && i <= |g.members[c]|
    ensures Sized(g, r.0) && Later(m, r.0)
    decreases White(m.syms, m.choices), 2 + |g.members[c]| - i
  {
    if i == |g.members[c]| then (m, NoLoop)
    else
      var at := m.(cur := m.cur[c := i]);
      var (m1, o) := VisitMember(g, at, g.members[c][i], skip);
      if o.NoLoop? then VisitMembers(g, m1, c, skip, i + 1) else (m1, o)
  }

  ghost function VisitMember(g: Graph, m: Marks, s: nat, skip: Option<nat>): (r: (Marks, Outcome))
    requires GraphOk(g) && Sized(g, m) && s < |g.owner|
    ensures Sized(g, r.0) && Later(m, r.0)
    decreases White(m.syms, m.choices), 1
  {
    if skip == Some(s) then (m, NoLoop) else VisitSym(g, m, s, true)
  }

  lemma MembersStep(g: Graph, m: Marks, c: nat, skip: Option<nat>, i: nat, at: Marks, r: (Marks, Outcome))
    requires GraphOk(g) && Sized(g, m) && c < |g.members| && i < |g.members[c]|
    requires at == m.(cur := m.cur[c := i]) && r == VisitMember(g, at, g.members[c][i], skip)
    ensures VisitMembers(g, m, c, skip, i) == if r.1.NoLoop? then VisitMembers(g, r.0, c, skip, i + 1) else r
  {
  }

  /** The check that runs over all symbols; a loop still being collected would be lost here. */
  ghost function VisitAll(g: Graph, m: Marks, s: nat): (r: (Marks, Outcome))
    requires GraphOk(g) && Sized(g, m) && s <= |g.owner|
    ensures Sized(g, r.0) && Later(m, r.0)
    decreases |g.owner| - s
  {
    if s == |g.owner| then (m, NoLoop)
    else
      var (m1, o) := VisitSym(g, m, s, false);
      if o.Raised? then (m1, o) else VisitAll(g, m1, s + 1)
  }

  // ---- The call stack ----

  /** A call that finds no loop leaves the call stack as it was. */
  ghost predicate Advances(m: Marks, m': Marks) {
    && |m'.syms| == |m.syms| && |m'.choices| == |m.choices| == |m.cur| == |m'.cur|
    && (forall z :: Colour(m, z) == 1 <==> Colour(m', z) == 1)
    && (forall z | Colour(m, z) == 2 :: Colour(m', z) == 2)
    && (forall c | 0 <= c < |m.choices| && m.choices[c] == 1 :: m'.cur[c] == m.cur[c])
    && m.order <= m'.order
  }

  lemma AdvancesTrans(m: Marks, m': Marks, m'': Marks)
    requires Advances(m, m') && Advances(m', m'')
    ensures Advances(m, m'')
  {
    forall c | 0 <= c < |m.choices| && m.choices[c] == 1 ensures m''.cur[c] == m.cur[c] {
      assert Colour(m, IChoice(c)) == 1 && Colour(m', IChoice(c)) == 1;
    }
  }

  /** The position of one choice does not matter. */
  lemma AdvancesMoved(m: Marks, c: nat, i: nat, m1: Marks, n: nat)
    requires c < |m.cur| && Advances(m.(cur := m.cur[c := i]), m1)
    ensures |m1.cur| == |m.cur| && Advances(m.(cur := m.cur[c := n]), m1.(cur := m1.cur[c := n]))
  {
    var a, b := m.(cur := m.cur[c := n]), m1.(cur := m1.cur[c := n]);
    assert forall z :: Colour(a, z) == Colour(m.(cur := m.cur[c := i]), z);
    assert forall z :: Colour(b, z) == Colour(m1, z);
  }

  lemma {:induction false} SymAdvances(g: Graph, m: Marks, s: nat, ignore: bool)
    requires GraphOk(g) && Sized(g, m) && s < |g.owner|
    requires VisitSym(g, m, s, ignore).1.NoLoop?
    ensures Advances(m, VisitSym(g, m, s, ignore).0) && Colour(VisitSym(g, m, s, ignore).0, ISym(s)) == 2
    decreases White(m.syms, m.choices), 0
  {
    if m.syms[s] == 0 {
      var grey := Paint(m, ISym(s), 1);
      PaintFalls(m, ISym(s), 1);
      DepsAdvances(g, grey, s, 0);
      var m1 := VisitDeps(g, grey, s, 0).0;
      assert Colour(m1, ISym(s)) == 1;
      if g.owner[s].Some? && !ignore {
        ChoiceAdvances(g, m1, g.owner[s].value, Some(s));
        var m2 := VisitChoice(g, m1, g.owner[s].value, Some(s)).0;
        AdvancesTrans(grey, m1, m2);
        AdvancesUnpaint(m, ISym(s), m2, FinishSym(m2, s));
      } else {
        AdvancesUnpaint(m, ISym(s), m1, FinishSym(m1, s));
      }
    }
  }

  lemma AdvancesUnpaint(m: Marks, z: Item, m1: Marks, m2: Marks)
    requires Colour(m, z) == 0 && Colour(Paint(m, z, 1), z) == 1
    requires Advances(Paint(m, z, 1), m1)
    requires m2 == Paint(m1, z, 2).(order := m2.order) && m1.order <= m2.order
    ensures Advances(m, m2) && Colour(m2, z) == 2
  {
    var p, q := Paint(m, z, 1), Paint(m1, z, 2);
    assert Colour(m1, z) == 1;
    forall y ensures y != z ==> Colour(p, y) == Colour(m, y) && Colour(m2, y) == Colour(m1, y) {}
    assert forall y :: Colour(m2, y) == Colour(q, y);
    assert Colour(m2, z) == 2;
  }

  lemma {:induction false} DepsAdvances(g: Graph, m: Marks, s: nat, i: nat)
    requires GraphOk(g) && Sized(g, m) && s < |g.deps| && i <= |g.deps[s]|
    requires VisitDeps(g, m, s, i).1.NoLoop?
    ensures Advances(m, VisitDeps(g, m, s, i).0)
    decreases White(m.syms, m.choices), 2 + |g.deps[s]| - i
  {
    if i < |g.deps[s]| {
      var d := g.deps[s][i];
      assert InGraph(g, d);
      var r := VisitDep(g, m, d);
      DepsNext(g, m, s, i, r);
      DepAdvances(g, m, d);
      DepsAdvances(g, r.0, s, i + 1);
      AdvancesTrans(m, r.0, VisitDeps(g, m, s, i).0);
    }
  }

  lemma {:induction false} DepAdvances(g: Graph, m: Marks, d: Item)
    requires GraphOk(g) && Sized(g, m) && InGraph(g, d) && VisitDep(g, m, d).1.NoLoop?
    ensures Advances(m, VisitDep(g, m, d).0) && Colour(VisitDep(g, m, d).0, d) == 2
    decreases White(m.syms, m.choices), 1
  {
    if d.ISym? { SymAdvances(g, m, d.s, false); } else { ChoiceAdvances(g, m, d.c, None); }
  }

  lemma {:induction false} ChoiceAdvances(g: Graph, m: Marks, c: nat, skip: Option<nat>)
    requires GraphOk(g) && Sized(g, m) && c < |g.members|
    requires VisitChoice(g, m, c, skip).1.NoLoop?
    ensures Advances(m, VisitChoice(g, m, c, skip).0) && Colour(VisitChoice(g, m, c, skip).0, IChoice(c)) == 2
    decreases White(m.syms, m.choices), 0
  {
    if m.choices[c] == 0 {
      var grey := Enter(m, c, skip);
      EnterFalls(m, c, skip);
      MembersAdvances(g, grey, c, skip, 0);
      var m1 := VisitMembers(g, grey, c, skip, 0).0;
      var n := grey.(cur := grey.cur[c := m1.cur[c]]);
      var was := m.(cur := n.cur, entry := n.entry);
      assert n == Paint(was, IChoice(c), 1);
      AdvancesUnpaint(was, IChoice(c), m1, FinishChoice(m1, c));
      assert forall z :: Colour(was, z) == Colour(m, z);
    }
  }

  /** As for a single call, except that the position of the choice itself moves. */
  lemma {:induction false} MembersAdvances(g: Graph, m: Marks, c: nat, skip: Option<nat>, i: nat)
    requires GraphOk(g) && Sized(g, m) && c < |g.members| && i <= |g.members[c]| && m.choices[c] == 1
    requires VisitMembers(g, m, c, skip, i).1.NoLoop?
    ensures var m' := VisitMembers(g, m, c, skip, i).0;
      |m'.cur| == |m.cur| && Advances(m.(cur := m.cur[c := m'.cur[c]]), m')
    decreases White(m.syms, m.choices), 2 + |g.members[c]| - i
  {
    var m' := VisitMembers(g, m, c, skip, i).0;
    if i < |g.members[c]| {
      var at := m.(cur := m.cur[c := i]);
      assert forall z :: Colour(at, z) == Colour(m, z);
      var m1 := at;
      assert Colour(at, IChoice(c)) == 1;
      if skip != Some(g.members[c][i]) {
        SymAdvances(g, at, g.members[c][i], true);
        m1 := VisitSym(g, at, g.members[c][i], true).0;
      }
      assert Advances(at, m1);
      assert Colour(m1, IChoice(c)) == 1;
      MembersAdvances(g, m1, c, skip, i + 1);
      AdvancesMoved(m, c, i, m1, m'.cur[c]);
      AdvancesTrans(m.(cur := m.cur[c := m'.cur[c]]), m1.(cur := m1.cur[c := m'.cur[c]]), m');
    } else {
      assert m.cur == m.cur[c := m.cur[c]];
    }
  }
}
