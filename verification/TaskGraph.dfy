/**
  The dependency graph of the build tasks: an edge to every task from each task
  whose config or provided name it depends on, and an automatic edge from a task
  that nothing depends on to the nearest task that asks for such edges.

  The search for the nearest one climbs the graph level by level and keeps no
  record of visited tasks, so above a dependency loop it need not end; and the
  graph is only checked for loops after all searches.
 */
module TaskGraph {
  import opened Common

  /** A task as its manifest describes it; `flagged` is auto_create_rdepends. */
  datatype Spec = Spec(config: string, provided: string, cmdType: string, deps: seq<string>, flagged: bool)

  datatype Failure = Unsatisfied(task: nat, dep: string) | DependencyLoop | InvalidType(task: nat)
  datatype Result<+T> = Ok(value: T) | Err(why: Failure)

  // ---- Graphs with ordered adjacency lists ----

  datatype Digraph = Digraph(succ: seq<seq<nat>>, pred: seq<seq<nat>>)

  predicate HasEdge(g: Digraph, u: nat, v: nat) {
    u < |g.succ| && v in g.succ[u]
  }

  /** The two lists agree on an edge. */
  predicate Mirrored(g: Digraph, u: nat, v: nat) {
    HasEdge(g, u, v) <==> v < |g.pred| && u in g.pred[v]
  }

  predicate Distinct(g: Digraph, u: nat)
    requires u < |g.succ| && u < |g.pred|
  {
    NoDup(g.succ[u]) && NoDup(g.pred[u])
  }

  ghost predicate GraphOk(g: Digraph) {
    && |g.pred| == |g.succ|
    && (forall u: nat, v: nat :: Mirrored(g, u, v))
    && (forall u | 0 <= u < |g.succ| :: Distinct(g, u))
  }

  function Empty(n: nat): (g: Digraph)
    ensures GraphOk(g) && |g.succ| == n
  {
    var g := Digraph(seq(n, _ => []), seq(n, _ => []));
    assert forall u: nat, v: nat :: Mirrored(g, u, v);
    assert forall u | 0 <= u < n :: Distinct(g, u);
    g
  }

  /** Adding an edge twice changes nothing. */
  function AddEdge(g: Digraph, u: nat, v: nat): (g': Digraph)
    requires GraphOk(g) && u < |g.succ| && v < |g.succ|
    ensures GraphOk(g') && Grows(g, g')
  {
    if v in g.succ[u] then g
    else
      AddEdgeOk(g, u, v);
      WithEdge(g, u, v)
  }

  function WithEdge(g: Digraph, u: nat, v: nat): Digraph
    requires u < |g.succ| && v < |g.pred|
  {
    Digraph(g.succ[u := g.succ[u] + [v]], g.pred[v := g.pred[v] + [u]])
  }

  lemma AddEdgeOk(g: Digraph, u: nat, v: nat)
    requires GraphOk(g) && u < |g.succ| && v < |g.succ| && v !in g.succ[u]
    ensures GraphOk(WithEdge(g, u, v))
  {
    var g' := WithEdge(g, u, v);
    assert Mirrored(g, u, v);
    forall a: nat, b: nat ensures Mirrored(g', a, b) { assert Mirrored(g, a, b); }
    forall a | 0 <= a < |g'.succ| ensures Distinct(g', a) { assert Distinct(g, a); }
  }

  lemma AddEdgeIs(g: Digraph, u: nat, v: nat, a: nat, b: nat)
    requires GraphOk(g) && u < |g.succ| && v < |g.succ|
    ensures HasEdge(AddEdge(g, u, v), a, b) <==> HasEdge(g, a, b) || (a, b) == (u, v)
  {
  }

  /** Edges are only appended. */
  ghost predicate Grows(g: Digraph, g': Digraph) {
    && |g'.succ| == |g.succ|
    && forall u | 0 <= u < |g.succ| :: g.succ[u] <= g'.succ[u]
  }

  predicate EdgesIn(es: seq<(nat, nat)>, n: nat) {
    forall i | 0 <= i < |es| :: es[i].0 < n && es[i].1 < n
  }

  function AddAll(g: Digraph, es: seq<(nat, nat)>): (g': Digraph)
    requires GraphOk(g) && EdgesIn(es, |g.succ|)
    ensures GraphOk(g') && Grows(g, g')
  {
    if es == [] then g
    else
      AddEdge(AddAll(g, es[..|es| - 1]), es[|es| - 1].0, es[|es| - 1].1)
  }

  lemma {:induction false} AddAllIs(g: Digraph, es: seq<(nat, nat)>, a: nat, b: nat)
    requires GraphOk(g) && EdgesIn(es, |g.succ|)
    ensures HasEdge(AddAll(g, es), a, b) <==> HasEdge(g, a, b) || (a, b) in es
  {
    if es != [] {
      var rest, e := es[..|es| - 1], es[|es| - 1];
      assert es == rest + [e];
      AddAllIs(g, rest, a, b);
      AddEdgeIs(AddAll(g, rest), e.0, e.1, a, b);
    }
  }

  lemma AddAllOne(g: Digraph, es: seq<(nat, nat)>, e: (nat, nat))
    requires GraphOk(g) && EdgesIn(es + [e], |g.succ|)
    ensures EdgesIn(es, |g.succ|) && e.0 < |g.succ| && e.1 < |g.succ|
    ensures AddAll(g, es + [e]) == AddEdge(AddAll(g, es), e.0, e.1)
  {
    assert (es + [e])[..|es|] == es && (es + [e])[|es|] == e;
    forall i | 0 <= i < |es| ensures es[i].0 < |g.succ| && es[i].1 < |g.succ| { assert (es + [e])[i] == es[i]; }
  }

  // ---- Edges from dependencies ----

  predicate Matches(s: Spec, dep: string) {
    s.config == dep || s.provided == dep
  }

  /** g with the edges to task t for one dependency, from the first n tasks. */
  function DepGraph(specs: seq<Spec>, g: Digraph, dep: string, t: nat, n: nat): (g': Digraph)
    requires GraphOk(g) && |g.succ| == |specs| && t < |specs| && n <= |specs|
    ensures GraphOk(g') && |g'.succ| == |specs|
  {
    if n == 0 then g
    else if Matches(specs[n - 1], dep) then AddEdge(DepGraph(specs, g, dep, t, n - 1), n - 1, t)
    else DepGraph(specs, g, dep, t, n - 1)
  }

  lemma {:induction false} DepGraphIs(specs: seq<Spec>, g: Digraph, dep: string, t: nat, n: nat, a: nat, b: nat)
    requires GraphOk(g) && |g.succ| == |specs| && t < |specs| && n <= |specs|
    ensures var g' := DepGraph(specs, g, dep, t, n);
      && Grows(g, g')
      && (HasEdge(g', a, b) <==> HasEdge(g, a, b) || (b == t && a < n && Matches(specs[a], dep)))
  {
    if n > 0 {
      DepGraphIs(specs, g, dep, t, n - 1, a, b);
      AddEdgeIs(DepGraph(specs, g, dep, t, n - 1), n - 1, t, a, b);
    }
  }

  /** g with the edges to task t for its first n dependencies. */
  function DepsGraph(specs: seq<Spec>, g: Digraph, t: nat, n: nat): (g': Digraph)
    requires GraphOk(g) && |g.succ| == |specs| && t < |specs| && n <= |specs[t].deps|
    ensures GraphOk(g') && |g'.succ| == |specs|
  {
    if n == 0 then g else DepGraph(specs, DepsGraph(specs, g, t, n - 1), specs[t].deps[n - 1], t, |specs|)
  }

  lemma {:induction false} DepsGraphIs(specs: seq<Spec>, g: Digraph, t: nat, n: nat, a: nat, b: nat)
    requires GraphOk(g) && |g.succ| == |specs| && t < |specs| && n <= |specs[t].deps|
    ensures var g' := DepsGraph(specs, g, t, n);
      && Grows(g, g')
      && (HasEdge(g', a, b) <==>
            HasEdge(g, a, b) ||
            (b == t && a < |specs| && exists j | 0 <= j < n :: Matches(specs[a], specs[t].deps[j])))
  {
    if n > 0 {
      DepsGraphIs(specs, g, t, n - 1, a, b);
      DepGraphIs(specs, DepsGraph(specs, g, t, n - 1), specs[t].deps[n - 1], t, |specs|, a, b);
    }
  }

  predicate DependsOn(specs: seq<Spec>, t: nat, s: nat) {
    t < |specs| && s < |specs| && exists j | 0 <= j < |specs[t].deps| :: Matches(specs[s], specs[t].deps[j])
  }

  /** The edges to the first n tasks. */
  function BaseUpTo(specs: seq<Spec>, n: nat): (g: Digraph)
    requires n <= |specs|
    ensures GraphOk(g) && |g.succ| == |specs|
  {
    if n == 0 then Empty(|specs|) else DepsGraph(specs, BaseUpTo(specs, n - 1), n - 1, |specs[n - 1].deps|)
  }

  lemma {:induction false} BaseUpToIs(specs: seq<Spec>, n: nat, a: nat, b: nat)
    requires n <= |specs|
    ensures HasEdge(BaseUpTo(specs, n), a, b) <==> b < n && DependsOn(specs, b, a)
  {
    if n > 0 {
      BaseUpToIs(specs, n - 1, a, b);
      DepsGraphIs(specs, BaseUpTo(specs, n - 1), n - 1, |specs[n - 1].deps|, a, b);
    }
  }

  lemma {:induction false} BaseUpToGrows(specs: seq<Spec>, n: nat, m: nat)
    requires n <= m <= |specs|
    ensures Grows(BaseUpTo(specs, n), BaseUpTo(specs, m))
  {
    if n < m {
      BaseUpToGrows(specs, n, m - 1);
      DepsGraphIs(specs, BaseUpTo(specs, m - 1), m - 1, |specs[m - 1].deps|, 0, 0);
    }
  }

  function BaseGraph(specs: seq<Spec>): (g: Digraph)
    ensures GraphOk(g) && |g.succ| == |specs|
  {
    BaseUpTo(specs, |specs|)
  }

  lemma BaseEdgeIs(specs: seq<Spec>, s: nat, t: nat)
    ensures HasEdge(BaseGraph(specs), s, t) <==> DependsOn(specs, t, s)
  {
    BaseUpToIs(specs, |specs|, s, t);
  }

  predicate Matched(specs: seq<Spec>, dep: string) {
    MatchedBelow(specs, dep, |specs|)
  }

  predicate MatchedBelow(specs: seq<Spec>, dep: string, n: nat) {
    exists s | 0 <= s < |specs| && s < n :: Matches(specs[s], dep)
  }

  /** Every dependency names the config or the provided name of some task. */
  predicate AllMatched(specs: seq<Spec>) {
    forall t | 0 <= t < |specs| :: TaskMatched(specs, t, |specs[t].deps|)
  }

  predicate TaskMatched(specs: seq<Spec>, t: nat, n: nat)
    requires t < |specs|
  {
    forall j | 0 <= j < n && j < |specs[t].deps| :: Matched(specs, specs[t].deps[j])
  }

  function Flags(specs: seq<Spec>): (flags: seq<bool>)
    ensures |flags| == |specs| && forall t | 0 <= t < |specs| :: flags[t] == specs[t].flagged
  {
    seq(|specs|, t requires 0 <= t < |specs| => specs[t].flagged)
  }

  // ---- The search for the nearest flagged task ----

  predicate Candidate(g: Digraph, flags: seq<bool>, node: nat, c: nat) {
    node < |g.pred| && c < |flags| && c != node && c !in g.pred[node] && flags[c]
  }

  function FirstCandidate(g: Digraph, flags: seq<bool>, node: nat, cs: seq<nat>): Option<nat> {
    if cs == [] then None
    else if Candidate(g, flags, node, cs[0]) then Some(cs[0])
    else FirstCandidate(g, flags, node, cs[1..])
  }

  lemma {:induction false} CandidateIs(g: Digraph, flags: seq<bool>, node: nat, cs: seq<nat>, c: nat)
    ensures FirstCandidate(g, flags, node, cs) == Some(c) ==> c in cs && Candidate(g, flags, node, c)
    ensures c in cs && Candidate(g, flags, node, c) ==> FirstCandidate(g, flags, node, cs).Some?
  {
    if cs != [] {
      CandidateIs(g, flags, node, cs[1..], c);
      assert cs == [cs[0]] + cs[1..];
    }
  }

  /** The first candidate next to the first of the tasks xs that has one. */
  function Pick(g: Digraph, flags: seq<bool>, node: nat, xs: seq<nat>): Option<nat> {
    if xs == [] then None
    else
      var r := if xs[0] < |g.succ| then FirstCandidate(g, flags, node, g.succ[xs[0]]) else None;
      if r.Some? then r else Pick(g, flags, node, xs[1..])
  }

  lemma {:induction false} PickNone(g: Digraph, flags: seq<bool>, node: nat, xs: seq<nat>, x: nat, c: nat)
    requires x in xs && HasEdge(g, x, c) && Candidate(g, flags, node, c)
    ensures Pick(g, flags, node, xs).Some?
  {
    CandidateIs(g, flags, node, g.succ[x], c);
    if x != xs[0] {
      assert xs == [xs[0]] + xs[1..];
      PickNone(g, flags, node, xs[1..], x, c);
    }
  }

  lemma {:induction false} PickSome(g: Digraph, flags: seq<bool>, node: nat, xs: seq<nat>) returns (x: nat)
    requires Pick(g, flags, node, xs).Some?
    ensures x in xs && HasEdge(g, x, Pick(g, flags, node, xs).value)
    ensures Candidate(g, flags, node, Pick(g, flags, node, xs).value)
  {
    x := xs[0];
    CandidateIs(g, flags, node, if x < |g.succ| then g.succ[x] else [], Pick(g, flags, node, xs).value);
    if x >= |g.succ| || FirstCandidate(g, flags, node, g.succ[x]).None? { x := PickSome(g, flags, node, xs[1..]); }
  }

  function Preds(g: Digraph, xs: seq<nat>): seq<nat> {
    if xs == [] then []
    else (if xs[0] < |g.pred| then g.pred[xs[0]] else []) + Preds(g, xs[1..])
  }

  lemma {:induction false} PredsIs(g: Digraph, xs: seq<nat>, y: nat)
    ensures y in Preds(g, xs) <==> exists x | x in xs :: x < |g.pred| && y in g.pred[x]
  {
    if xs != [] {
      PredsIs(g, xs[1..], y);
      assert xs == [xs[0]] + xs[1..];
    }
  }

  /** The tasks k + 1 steps above node, once for each way up. */
  function Level(g: Digraph, node: nat, k: nat): seq<nat>
    requires node < |g.pred|
  {
    if k == 0 then g.pred[node] else Preds(g, Level(g, node, k - 1))
  }

  ghost predicate StopsAt(g: Digraph, flags: seq<bool>, node: nat, k: nat)
    requires node < |g.pred|
  {
    Level(g, node, k) == [] || Pick(g, flags, node, Level(g, node, k)).Some?
  }

  ghost predicate Ends(g: Digraph, flags: seq<bool>, node: nat) {
    node < |g.pred| && exists k: nat :: StopsAt(g, flags, node, k)
  }

  ghost predicate FirstStopAt(g: Digraph, flags: seq<bool>, node: nat, k: nat)
    requires node < |g.pred|
  {
    StopsAt(g, flags, node, k) && forall j: nat | j < k :: !StopsAt(g, flags, node, j)
  }

  lemma LeastStop(g: Digraph, flags: seq<bool>, node: nat, k: nat)
    requires node < |g.pred| && StopsAt(g, flags, node, k)
    ensures exists least: nat :: FirstStopAt(g, flags, node, least)
  {
    if j: nat :| j < k && StopsAt(g, flags, node, j) {
      LeastStop(g, flags, node, j);
    } else {
      assert FirstStopAt(g, flags, node, k);
    }
  }

  ghost function FirstStop(g: Digraph, flags: seq<bool>, node: nat): (k: nat)
    requires Ends(g, flags, node)
    ensures FirstStopAt(g, flags, node, k)
  {
    var k: nat :| StopsAt(g, flags, node, k);
    LeastStop(g, flags, node, k);
    var least: nat :| FirstStopAt(g, flags, node, least);
    least
  }

  ghost function Search(g: Digraph, flags: seq<bool>, node: nat): Option<nat>
    requires Ends(g, flags, node)
  {
    Pick(g, flags, node, Level(g, node, FirstStop(g, flags, node)))
  }

  lemma FoundIs(g: Digraph, flags: seq<bool>, node: nat)
    requires Ends(g, flags, node) && Search(g, flags, node).Some?
    ensures Candidate(g, flags, node, Search(g, flags, node).value)
  {
    var x := PickSome(g, flags, node, Level(g, node, FirstStop(g, flags, node)));
  }

  lemma {:induction false} PickAppend(g: Digraph, flags: seq<bool>, node: nat, xs: seq<nat>, ys: seq<nat>)
    ensures Pick(g, flags, node, xs + ys) ==
            if Pick(g, flags, node, xs).Some? then Pick(g, flags, node, xs) else Pick(g, flags, node, ys)
  {
    if xs == [] {
      assert xs + ys == ys;
    } else {
      assert (xs + ys)[1..] == xs[1..] + ys;
      PickAppend(g, flags, node, xs[1..], ys);
    }
  }

  lemma {:induction false} PredsAppend(g: Digraph, xs: seq<nat>, ys: seq<nat>)
    ensures Preds(g, xs + ys) == Preds(g, xs) + Preds(g, ys)
  {
    if xs == [] {
      assert xs + ys == ys;
    } else {
      assert (xs + ys)[1..] == xs[1..] + ys;
      PredsAppend(g, xs[1..], ys);
    }
  }

  /** The loop over the successors of one task above. */
  method FindChild(g: Digraph, flags: seq<bool>, node: nat, current: nat) returns (r: Option<nat>)
    requires GraphOk(g) && |flags| == |g.succ| && node < |g.succ| && current < |g.succ|
    ensures r == FirstCandidate(g, flags, node, g.succ[current])
  {
    var j := 0;
    r := None;
    while j < |g.succ[current]|
      invariant 0 <= j <= |g.succ[current]|
      invariant FirstCandidate(g, flags, node, g.succ[current]) == FirstCandidate(g, flags, node, g.succ[current][j..])
    {
      var child := g.succ[current][j];
      assert HasEdge(g, current, child) && Mirrored(g, current, child);
      if child != node && child !in g.pred[node] && flags[child] { return Some(child); }
      j := j + 1;
    }
  }

  /** Where the queue stands: the rest of level k, then what has been found of the next level. */
  ghost predicate QueueAt(g: Digraph, node: nat, queue: seq<nat>, k: nat, i: nat)
    requires node < |g.pred|
  {
    var level := Level(g, node, k);
    if level == [] then i == 0 && queue == [] else i < |level| && queue == level[i..] + Preds(g, level[..i])
  }

  lemma QueueNext(g: Digraph, node: nat, queue: seq<nat>, k: nat, i: nat) returns (k': nat, i': nat)
    requires GraphOk(g) && node < |g.pred| && QueueAt(g, node, queue, k, i) && queue != []
    ensures queue[0] < |g.pred|
    ensures QueueAt(g, node, queue[1..] + g.pred[queue[0]], k', i')
    ensures var level := Level(g, node, k);
      && i < |level| && queue[0] == level[i]
      && (if i + 1 < |level| then k' == k && i' == i + 1 else k' == k + 1 && i' == 0)
  {
    var level := Level(g, node, k);
    LevelInGraph(g, node, k);
    var x := level[i];
    assert x in level;
    PredsNext(g, level, i);
    Dequeue(queue, level, i, Preds(g, level[..i]), g.pred[x]);
    if i + 1 < |level| {
      k', i' := k, i + 1;
    } else {
      k', i' := k + 1, 0;
      WholeLevel(g, node, k);
    }
  }

  lemma PredsNext(g: Digraph, level: seq<nat>, i: nat)
    requires i < |level| && level[i] < |g.pred|
    ensures Preds(g, level[..i + 1]) == Preds(g, level[..i]) + g.pred[level[i]]
  {
    assert level[..i + 1] == level[..i] + [level[i]];
    PredsAppend(g, level[..i], [level[i]]);
    assert Preds(g, [level[i]]) == g.pred[level[i]] + Preds(g, []);
  }

  lemma Dequeue(queue: seq<nat>, level: seq<nat>, i: nat, next: seq<nat>, more: seq<nat>)
    requires i < |level| && queue == level[i..] + next
    ensures queue[0] == level[i] && queue[1..] + more == level[i + 1..] + (next + more)
  {
    assert level[i..][1..] == level[i + 1..] && queue[1..] == level[i..][1..] + next;
  }

  lemma WholeLevel(g: Digraph, node: nat, k: nat)
    requires node < |g.pred|
    ensures var level := Level(g, node, k);
      level[|level|..] + Preds(g, level[..|level|]) == Level(g, node, k + 1)[0..] + Preds(g, Level(g, node, k + 1)[..0])
  {
    var level := Level(g, node, k);
    assert level[..|level|] == level && Level(g, node, k + 1) == Preds(g, level);
    assert Level(g, node, k + 1)[..0] == [] && Preds(g, []) == [];
  }

  lemma LevelInGraph(g: Digraph, node: nat, k: nat)
    requires GraphOk(g) && node < |g.pred|
    ensures forall x | x in Level(g, node, k) :: x < |g.succ|
  {
    if k == 0 {
      forall x | x in g.pred[node] ensures HasEdge(g, x, node) { assert Mirrored(g, x, node); }
    } else {
      forall x | x in Level(g, node, k) ensures x < |g.succ| {
        PredsIs(g, Level(g, node, k - 1), x);
        var y :| y in Level(g, node, k - 1) && y < |g.pred| && x in g.pred[y];
        assert Mirrored(g, x, y);
      }
    }
  }

  /** Nothing was found so far, and the search has not passed the level where it ends. */
  ghost predicate SearchAt(g: Digraph, flags: seq<bool>, node: nat, queue: seq<nat>, k: nat, i: nat)
    requires Ends(g, flags, node)
  {
    && QueueAt(g, node, queue, k, i) && k <= FirstStop(g, flags, node)
    && Pick(g, flags, node, Level(g, node, k)[..i]).None?
  }

  lemma SearchStep(g: Digraph, flags: seq<bool>, node: nat, queue: seq<nat>, k: nat, i: nat) returns (k': nat, i': nat)
    requires GraphOk(g) && Ends(g, flags, node) && SearchAt(g, flags, node, queue, k, i) && queue != []
    ensures queue[0] < |g.succ| && i < |Level(g, node, k)|
    ensures var r := FirstCandidate(g, flags, node, g.succ[queue[0]]);
      if r.Some? then r == Search(g, flags, node)
      else
        && SearchAt(g, flags, node, queue[1..] + g.pred[queue[0]], k', i')
        && (k' == k + 1 || (k' == k && i' == i + 1))
  {
    k', i' := QueueNext(g, node, queue, k, i);
    var level, stop := Level(g, node, k), FirstStop(g, flags, node);
    PickNext(g, flags, node, level, i);
    if Pick(g, flags, node, level[..i + 1]).Some? {
      assert StopsAt(g, flags, node, k);
      assert k == stop;
    } else if i + 1 == |level| {
      assert level[..i + 1] == level;
      assert !StopsAt(g, flags, node, k);
      assert Pick(g, flags, node, Level(g, node, k')[..i']) == Pick(g, flags, node, []) == None;
    }
  }

  lemma SearchOver(g: Digraph, flags: seq<bool>, node: nat, k: nat, i: nat)
    requires Ends(g, flags, node) && SearchAt(g, flags, node, [], k, i)
    ensures Search(g, flags, node).None?
  {
    assert Level(g, node, k) == [];
    assert StopsAt(g, flags, node, k);
    assert k == FirstStop(g, flags, node);
  }

  method FindEdgeToParent(g: Digraph, flags: seq<bool>, node: nat) returns (child: Option<nat>)
    requires GraphOk(g) && |flags| == |g.succ| && Ends(g, flags, node)
    ensures child == Search(g, flags, node)
    ensures child.Some? ==> child.value < |flags| && flags[child.value] && child.value != node && !HasEdge(g, child.value, node)
  {
    var queue := g.pred[node];
    child := None;
    ghost var k: nat, i: nat := 0, 0;
    assert Level(g, node, 0)[..0] == [] && Pick(g, flags, node, []) == None && Preds(g, []) == [];
    while queue != [] && child.None?
      invariant child.None? ==> SearchAt(g, flags, node, queue, k, i)
      invariant child.Some? ==> child == Search(g, flags, node)
      decreases child.None?, FirstStop(g, flags, node) - k, |Level(g, node, k)| - i
    {
      ghost var k', i' := SearchStep(g, flags, node, queue, k, i);
      var current := queue[0];
      queue := queue[1..];
      child := FindChild(g, flags, node, current);
      if child.None? {
        queue := queue + g.pred[current];
        k, i := k', i';
      }
    }
    if child.None? {
      SearchOver(g, flags, node, k, i);
    } else {
      FoundIs(g, flags, node);
      assert Mirrored(g, child.value, node);
    }
  }

  lemma PickNext(g: Digraph, flags: seq<bool>, node: nat, level: seq<nat>, i: nat)
    requires i < |level| && level[i] < |g.succ| && Pick(g, flags, node, level[..i]).None?
    ensures Pick(g, flags, node, level[..i + 1]) == FirstCandidate(g, flags, node, g.succ[level[i]])
    ensures Pick(g, flags, node, level[..i + 1]).Some? ==>
              Pick(g, flags, node, level) == Pick(g, flags, node, level[..i + 1])
  {
    assert level[..i + 1] == level[..i] + [level[i]] && level == level[..i + 1] + level[i + 1..];
    PickAppend(g, flags, node, level[..i], [level[i]]);
    PickAppend(g, flags, node, level[..i + 1], level[i + 1..]);
    assert Pick(g, flags, node, []) == None;
  }

  // ---- Paths ----

  ghost predicate Path(g: Digraph, p: seq<nat>) {
    && p != [] && (forall i | 0 <= i < |p| :: p[i] < |g.succ|)
    && forall i | 0 <= i < |p| - 1 :: StepAt(g, p, i)
  }

  predicate StepAt(g: Digraph, p: seq<nat>, i: nat)
    requires i < |p| - 1
  {
    HasEdge(g, p[i], p[i + 1])
  }

  ghost predicate Loop(g: Digraph, p: seq<nat>) {
    Path(g, p) && |p| >= 2 && p[0] == p[|p| - 1]
  }

  ghost predicate Cyclic(g: Digraph) {
    exists p: seq<nat> :: Loop(g, p)
  }

  /** p leads down from a task above node. */
  ghost predicate UpPath(g: Digraph, node: nat, p: seq<nat>) {
    Path(g, p) && |p| >= 2 && p[|p| - 1] == node
  }

  lemma UpPathCut(g: Digraph, node: nat, p: seq<nat>, i: nat)
    requires UpPath(g, node, p) && i <= |p| - 2
    ensures UpPath(g, node, p[i..])
  {
    var q := p[i..];
    forall j | 0 <= j < |q| - 1 ensures StepAt(g, q, j) { assert StepAt(g, p, i + j); }
  }

  lemma UpPathMore(g: Digraph, node: nat, y: nat, p: seq<nat>)
    requires UpPath(g, node, p) && HasEdge(g, y, p[0])
    ensures UpPath(g, node, [y] + p)
  {
    assert y < |g.succ|;
    var q := [y] + p;
    forall i | 0 <= i < |q| - 1 ensures StepAt(g, q, i) {
      if i > 0 { assert StepAt(g, p, i - 1); }
    }
  }

  lemma PathAppend(g: Digraph, p: seq<nat>, v: nat)
    requires Path(g, p) && v < |g.succ| && HasEdge(g, p[|p| - 1], v)
    ensures Path(g, p + [v])
  {
    var q := p + [v];
    forall i | 0 <= i < |q| - 1 ensures StepAt(g, q, i) {
      if i < |p| - 1 { assert StepAt(g, p, i); }
    }
  }

  /** The tasks on level k are those at the top of a path of k + 1 steps. */
  lemma LevelPaths(g: Digraph, node: nat, k: nat, x: nat)
    requires GraphOk(g) && node < |g.pred|
    ensures x in Level(g, node, k) <==> exists p: seq<nat> :: UpPath(g, node, p) && |p| == k + 2 && p[0] == x
  {
    if x in Level(g, node, k) { var p := LevelUp(g, node, k, x); }
    if p: seq<nat> :| UpPath(g, node, p) && |p| == k + 2 && p[0] == x { LevelDown(g, node, k, p); }
  }

  lemma {:induction false} LevelUp(g: Digraph, node: nat, k: nat, x: nat) returns (p: seq<nat>)
    requires GraphOk(g) && node < |g.pred| && x in Level(g, node, k)
    ensures UpPath(g, node, p) && |p| == k + 2 && p[0] == x
  {
    if k == 0 {
      p := [x, node];
      assert Mirrored(g, x, node) && StepAt(g, p, 0);
    } else {
      var y := PredOf(g, Level(g, node, k - 1), x);
      var q := LevelUp(g, node, k - 1, y);
      UpPathMore(g, node, x, q);
      p := [x] + q;
    }
  }

  lemma PredOf(g: Digraph, xs: seq<nat>, x: nat) returns (y: nat)
    requires GraphOk(g) && x in Preds(g, xs)
    ensures y in xs && HasEdge(g, x, y)
  {
    PredsIs(g, xs, x);
    y :| y in xs && y < |g.pred| && x in g.pred[y];
    assert Mirrored(g, x, y);
  }

  lemma {:induction false} LevelDown(g: Digraph, node: nat, k: nat, p: seq<nat>)
    requires GraphOk(g) && node < |g.pred| && UpPath(g, node, p) && |p| == k + 2
    ensures p[0] in Level(g, node, k)
  {
    assert StepAt(g, p, 0) && Mirrored(g, p[0], p[1]);
    if k > 0 {
      UpPathCut(g, node, p, 1);
      LevelDown(g, node, k - 1, p[1..]);
      PredsIs(g, Level(g, node, k - 1), p[0]);
    }
  }

  lemma {:induction false} EmptyStays(g: Digraph, node: nat, k: nat, j: nat)
    requires node < |g.pred| && Level(g, node, k) == [] && k <= j
    ensures Level(g, node, j) == []
  {
    if k < j { EmptyStays(g, node, k, j - 1); }
  }

  // ---- The search finds the nearest candidate ----

  /** From the top of p there is an edge to candidate c. */
  ghost predicate Offers(g: Digraph, flags: seq<bool>, node: nat, p: seq<nat>, c: nat) {
    UpPath(g, node, p) && HasEdge(g, p[0], c) && Candidate(g, flags, node, c)
  }

  lemma OfferPicked(g: Digraph, flags: seq<bool>, node: nat, p: seq<nat>, c: nat)
    requires GraphOk(g) && node < |g.pred| && Offers(g, flags, node, p, c)
    ensures Pick(g, flags, node, Level(g, node, |p| - 2)).Some?
  {
    LevelPaths(g, node, |p| - 2, p[0]);
    PickNone(g, flags, node, Level(g, node, |p| - 2), p[0], c);
  }

  lemma PickedOffer(g: Digraph, flags: seq<bool>, node: nat, k: nat) returns (p: seq<nat>)
    requires GraphOk(g) && node < |g.pred| && Pick(g, flags, node, Level(g, node, k)).Some?
    ensures |p| == k + 2 && Offers(g, flags, node, p, Pick(g, flags, node, Level(g, node, k)).value)
  {
    var x := PickSome(g, flags, node, Level(g, node, k));
    LevelPaths(g, node, k, x);
    p :| UpPath(g, node, p) && |p| == k + 2 && p[0] == x;
  }

  ghost predicate Nearest(g: Digraph, flags: seq<bool>, node: nat, p: seq<nat>) {
    UpPath(g, node, p) && forall q: seq<nat>, c: nat | |q| < |p| :: !Offers(g, flags, node, q, c)
  }

  lemma BeforeStop(g: Digraph, flags: seq<bool>, node: nat, q: seq<nat>, c: nat)
    requires GraphOk(g) && Ends(g, flags, node) && Offers(g, flags, node, q, c)
    ensures Search(g, flags, node).Some? && FirstStop(g, flags, node) <= |q| - 2
  {
    var stop := FirstStop(g, flags, node);
    OfferPicked(g, flags, node, q, c);
    assert StopsAt(g, flags, node, |q| - 2);
    if Level(g, node, stop) == [] { EmptyStays(g, node, stop, |q| - 2); }
  }

  /** A result is a candidate next to a task at the least distance that has one; no result means there is none. */
  lemma SearchNearest(g: Digraph, flags: seq<bool>, node: nat)
    requires GraphOk(g) && Ends(g, flags, node)
    ensures Search(g, flags, node).None? <==> forall p: seq<nat>, c: nat :: !Offers(g, flags, node, p, c)
    ensures Search(g, flags, node).Some? ==>
              exists p: seq<nat> :: Nearest(g, flags, node, p) && Offers(g, flags, node, p, Search(g, flags, node).value)
  {
    if Search(g, flags, node).Some? {
      var p := PickedOffer(g, flags, node, FirstStop(g, flags, node));
      forall q: seq<nat>, c: nat | |q| < |p| ensures !Offers(g, flags, node, q, c) {
        if Offers(g, flags, node, q, c) { BeforeStop(g, flags, node, q, c); }
      }
      assert Nearest(g, flags, node, p);
    }
    forall p: seq<nat>, c: nat | Search(g, flags, node).None? ensures !Offers(g, flags, node, p, c) {
      if Offers(g, flags, node, p, c) { BeforeStop(g, flags, node, p, c); }
    }
  }

  // ---- When the search ends ----

  lemma {:induction false} DistinctShort(p: seq<nat>, n: nat)
    requires NoDup(p) && forall i | 0 <= i < |p| :: p[i] < n
    ensures |p| <= n
  {
    if p == [] {
      return;
    }
    assert p[0] < n;
    if i :| 0 <= i < |p| && p[i] == n - 1 {
      DistinctShort(p[..i] + p[i + 1..], n - 1);
    } else {
      DistinctShort(p, n - 1);
    }
  }

  /** There is a dependency loop somewhere above node. */
  ghost predicate LoopAbove(g: Digraph, node: nat) {
    exists p: seq<nat>, q: seq<nat> :: UpPath(g, node, p) && Loop(g, q) && q[0] == p[0]
  }

  lemma LongLoops(g: Digraph, node: nat)
    requires GraphOk(g) && node < |g.pred| && Level(g, node, |g.succ|) != []
    ensures LoopAbove(g, node)
  {
    var x := Level(g, node, |g.succ|)[0];
    LevelPaths(g, node, |g.succ|, x);
    var p: seq<nat> :| UpPath(g, node, p) && |p| == |g.succ| + 2 && p[0] == x;
    if NoDup(p) { DistinctShort(p, |g.succ|); }
    var i, j :| 0 <= i < j < |p| && p[i] == p[j];
    var q := p[i..j + 1];
    forall l | 0 <= l < |q| - 1 ensures StepAt(g, q, l) { assert StepAt(g, p, i + l); }
    assert Loop(g, q);
    UpPathCut(g, node, p, i);
  }

  /** Going round the loop gives arbitrarily long paths. */
  lemma {:induction false} LoopsLong(g: Digraph, node: nat, p: seq<nat>, q: seq<nat>, n: nat) returns (r: seq<nat>)
    requires UpPath(g, node, p) && Loop(g, q) && q[0] == p[0]
    ensures UpPath(g, node, r) && |r| >= n + 2 && r[0] == p[0]
  {
    if n == 0 {
      r := p;
    } else {
      var rest := LoopsLong(g, node, p, q, n - 1);
      r := q[..|q| - 1] + rest;
      forall i | 0 <= i < |r| - 1 ensures StepAt(g, r, i) {
        if i < |q| - 1 { assert StepAt(g, q, i); } else { assert StepAt(g, rest, i - (|q| - 1)); }
      }
    }
  }

  lemma LoopFills(g: Digraph, node: nat, k: nat)
    requires GraphOk(g) && node < |g.pred| && LoopAbove(g, node)
    ensures Level(g, node, k) != []
  {
    var p: seq<nat>, q: seq<nat> :| UpPath(g, node, p) && Loop(g, q) && q[0] == p[0];
    var r := LoopsLong(g, node, p, q, k);
    var cut := r[|r| - (k + 2)..];
    UpPathCut(g, node, r, |r| - (k + 2));
    LevelPaths(g, node, k, cut[0]);
  }

  /** The search ends exactly if there is something to find or no dependency loop above the task. */
  lemma EndsIff(g: Digraph, flags: seq<bool>, node: nat)
    requires GraphOk(g) && node < |g.pred|
    ensures Ends(g, flags, node) <==> (exists p: seq<nat>, c: nat :: Offers(g, flags, node, p, c)) || !LoopAbove(g, node)
  {
    if Ends(g, flags, node) {
      var k: nat :| StopsAt(g, flags, node, k);
      if LoopAbove(g, node) {
        LoopFills(g, node, k);
        var p := PickedOffer(g, flags, node, k);
      }
    }
    if p: seq<nat>, c: nat :| Offers(g, flags, node, p, c) {
      OfferPicked(g, flags, node, p, c);
      assert StopsAt(g, flags, node, |p| - 2);
    }
    if !LoopAbove(g, node) {
      if Level(g, node, |g.succ|) != [] { LongLoops(g, node); }
      assert StopsAt(g, flags, node, |g.succ|);
    }
  }

  // ---- The whole graph ----

  /** Every search that building the graph starts comes to an end. */
  ghost predicate AllEnd(g: Digraph, flags: seq<bool>) {
    && |flags| == |g.succ| == |g.pred|
    && forall v | 0 <= v < |g.succ| && g.succ[v] == [] && !flags[v] :: Ends(g, flags, v)
  }

  lemma AcyclicAllEnd(g: Digraph, flags: seq<bool>)
    requires GraphOk(g) && |flags| == |g.succ| && !Cyclic(g)
    ensures AllEnd(g, flags)
  {
    forall v | 0 <= v < |g.succ| ensures Ends(g, flags, v) { EndsIff(g, flags, v); }
  }

  /** The task that v gets an automatic edge to: only if nothing depends on v and v is not flagged itself. */
  ghost function Auto(g: Digraph, flags: seq<bool>, v: nat): (r: Option<nat>)
    requires AllEnd(g, flags) && v < |g.succ|
    ensures r.Some? ==> r.value < |g.succ|
  {
    if g.succ[v] == [] && !flags[v] then
      if Search(g, flags, v).Some? then FoundIs(g, flags, v); Search(g, flags, v) else None
    else None
  }

  /** The automatic edges of the first n tasks. */
  ghost function AutoEdges(g: Digraph, flags: seq<bool>, n: nat): (es: seq<(nat, nat)>)
    requires AllEnd(g, flags) && n <= |g.succ|
    ensures EdgesIn(es, |g.succ|)
  {
    if n == 0 then []
    else
      var r := Auto(g, flags, n - 1);
      if r.Some? then AutoEdges(g, flags, n - 1) + [(n - 1, r.value)] else AutoEdges(g, flags, n - 1)
  }

  ghost predicate SearchesEnd(specs: seq<Spec>) {
    AllEnd(BaseGraph(specs), Flags(specs))
  }

  ghost function TaskDigraph(specs: seq<Spec>): (g: Digraph)
    requires SearchesEnd(specs)
    ensures GraphOk(g) && |g.succ| == |specs| && Grows(BaseGraph(specs), g)
  {
    AddAll(BaseGraph(specs), AutoEdges(BaseGraph(specs), Flags(specs), |specs|))
  }

  lemma {:induction false} AutoEdgeIs(g: Digraph, flags: seq<bool>, n: nat, u: nat, v: nat)
    requires AllEnd(g, flags) && n <= |g.succ|
    ensures (u, v) in AutoEdges(g, flags, n) <==> u < n && Auto(g, flags, u) == Some(v)
  {
    if n > 0 { AutoEdgeIs(g, flags, n - 1, u, v); }
  }

  /** An edge of the whole graph is a dependency, or leads from a task nothing depends on to the one its search found. */
  lemma TaskEdgeIs(specs: seq<Spec>, u: nat, v: nat)
    requires SearchesEnd(specs)
    ensures HasEdge(TaskDigraph(specs), u, v) <==>
            || DependsOn(specs, v, u)
            || (u < |specs| && Auto(BaseGraph(specs), Flags(specs), u) == Some(v))
  {
    AutoEdgeIs(BaseGraph(specs), Flags(specs), |specs|, u, v);
    AddAllIs(BaseGraph(specs), AutoEdges(BaseGraph(specs), Flags(specs), |specs|), u, v);
    BaseEdgeIs(specs, u, v);
  }

  // ---- Building it ----

  class Task {
    const config: string
    const provided: string
    const cmdType: string
    const flagged: bool
    var deps: seq<string>
    var id: nat

    constructor (spec: Spec)
      ensures View() == spec && id == 0
    {
      config, provided, cmdType, flagged := spec.config, spec.provided, spec.cmdType, spec.flagged;
      deps, id := spec.deps, 0;
    }

    function View(): Spec
      reads this
    {
      Spec(config, provided, cmdType, deps, flagged)
    }
  }

  function Views(tasks: seq<Task>): (specs: seq<Spec>)
    reads tasks
    ensures |specs| == |tasks| && forall i | 0 <= i < |tasks| :: specs[i] == tasks[i].View()
  {
    seq(|tasks|, i requires 0 <= i < |tasks| reads tasks => tasks[i].View())
  }

  ghost predicate Described(tasks: seq<Task>, specs: seq<Spec>)
    reads tasks
  {
    |specs| == |tasks| && forall i | 0 <= i < |tasks| :: specs[i] == tasks[i].View()
  }

  /** The failure names a dependency that no task satisfies. */
  predicate Missing(specs: seq<Spec>, why: Failure) {
    why.Unsatisfied? && why.task < |specs| && why.dep in specs[why.task].deps && !Matched(specs, why.dep)
  }

  predicate Numbered(tasks: seq<Task>)
    reads tasks
  {
    forall i | 0 <= i < |tasks| :: tasks[i].id == i + 1
  }

  method NumberTasks(tasks: seq<Task>)
    requires NoDup(tasks)
    modifies tasks
    ensures Numbered(tasks) && Views(tasks) == old(Views(tasks))
  {
    for i := 0 to |tasks|
      invariant forall j | 0 <= j < i :: tasks[j].id == j + 1
      invariant forall j | 0 <= j < |tasks| :: tasks[j].View() == old(tasks[j].View())
    {
      tasks[i].id := i + 1;
    }
  }

  /** The edges to task t for one dependency. */
  method AddDependency(tasks: seq<Task>, g0: Digraph, t: nat, dep: string, ghost specs: seq<Spec>)
    returns (g: Digraph, found: bool)
    requires Numbered(tasks) && Described(tasks, specs) && t < |specs| && GraphOk(g0) && |g0.succ| == |specs|
    ensures g == DepGraph(specs, g0, dep, t, |specs|) && (found <==> Matched(specs, dep))
  {
    g, found := g0, false;
    for s := 0 to |tasks|
      invariant g == DepGraph(specs, g0, dep, t, s)
      invariant found <==> MatchedBelow(specs, dep, s)
    {
      if tasks[s].config == dep || tasks[s].provided == dep {
        g := AddEdge(g, tasks[s].id - 1, tasks[t].id - 1);
        found := true;
      }
    }
  }

  /** The edges to task t, or its first dependency that no task satisfies. */
  method AddTask(tasks: seq<Task>, g0: Digraph, t: nat, ghost specs: seq<Spec>) returns (r: Result<Digraph>)
    requires Numbered(tasks) && Described(tasks, specs) && t < |specs| && GraphOk(g0) && |g0.succ| == |specs|
    ensures r.Ok? ==> TaskMatched(specs, t, |specs[t].deps|) && r.value == DepsGraph(specs, g0, t, |specs[t].deps|)
    ensures r.Err? ==> Missing(specs, r.why)
  {
    var g := g0;
    for j := 0 to |tasks[t].deps|
      invariant g == DepsGraph(specs, g0, t, j)
      invariant TaskMatched(specs, t, j)
    {
      var found: bool;
      g, found := AddDependency(tasks, g, t, tasks[t].deps[j], specs);
      if !found { return Err(Unsatisfied(t, tasks[t].deps[j])); }
    }
    r := Ok(g);
  }

  method AddDependencies(tasks: seq<Task>, ghost specs: seq<Spec>) returns (r: Result<Digraph>)
    requires Numbered(tasks) && Described(tasks, specs)
    ensures r.Ok? ==> AllMatched(specs) && r.value == BaseGraph(specs)
    ensures r.Err? ==> Missing(specs, r.why)
  {
    var g := Empty(|tasks|);
    for t := 0 to |tasks|
      invariant g == BaseUpTo(specs, t)
      invariant forall u | 0 <= u < t :: TaskMatched(specs, u, |specs[u].deps|)
    {
      r := AddTask(tasks, g, t, specs);
      if r.Err? { return; }
      g := r.value;
    }
    r := Ok(g);
  }

  method FindAuto(g: Digraph, flags: seq<bool>, v: nat, flagged: bool) returns (child: Option<nat>)
    requires GraphOk(g) && AllEnd(g, flags) && v < |flags| && flagged == flags[v]
    ensures child == Auto(g, flags, v)
  {
    child := None;
    if g.succ[v] == [] && !flagged { child := FindEdgeToParent(g, flags, v); }
  }

  /** The edges that the searches of all tasks nothing depends on have found. */
  method CollectEdges(tasks: seq<Task>, g: Digraph, ghost specs: seq<Spec>) returns (more: seq<(nat, nat)>)
    requires Described(tasks, specs) && GraphOk(g) && AllEnd(g, Flags(specs))
    ensures more == AutoEdges(g, Flags(specs), |tasks|)
  {
    var flags := Flags(Views(tasks));
    assert Views(tasks) == specs;
    more := [];
    for v := 0 to |tasks|
      invariant more == AutoEdges(g, flags, v)
    {
      assert flags[v] == tasks[v].View().flagged;
      var child := FindAuto(g, flags, v, tasks[v].flagged);
      if child.Some? { more := more + [(v, child.value)]; }
    }
  }

  method AddEdges(g0: Digraph, es: seq<(nat, nat)>) returns (g: Digraph)
    requires GraphOk(g0) && EdgesIn(es, |g0.succ|)
    ensures g == AddAll(g0, es)
  {
    g := g0;
    for i := 0 to |es|
      invariant EdgesIn(es[..i], |g0.succ|) && GraphOk(g) && |g.succ| == |g0.succ| && g == AddAll(g0, es[..i])
    {
      assert es[..i + 1] == es[..i] + [es[i]];
      AddAllOne(g0, es[..i], es[i]);
      g := AddEdge(g, es[i].0, es[i].1);
    }
    assert es[..|es|] == es;
  }

  method CreateTaskGraph(tasks: seq<Task>) returns (r: Result<Digraph>)
    requires NoDup(tasks) && (AllMatched(Views(tasks)) ==> SearchesEnd(Views(tasks)))
    modifies tasks
    ensures Numbered(tasks) && Views(tasks) == old(Views(tasks))
    ensures r.Ok? ==> AllMatched(Views(tasks)) && r.value == TaskDigraph(Views(tasks))
    ensures r.Err? ==> Missing(Views(tasks), r.why)
  {
    ghost var specs := Views(tasks);
    NumberTasks(tasks);
    r := AddDependencies(tasks, specs);
    if r.Ok? {
      var more := CollectEdges(tasks, r.value, specs);
      var g := AddEdges(r.value, more);
      r := Ok(g);
    }
  }
}
