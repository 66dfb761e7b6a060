/**
  Automatic edges, said in terms of the manifests: which task gets one, and to
  which of the tasks that ask for such edges it leads.
 */
module TaskAuto {
  import opened Common
  import opened TaskGraph

  /** Each task on p is depended on by the next one. */
  ghost predicate Chain(specs: seq<Spec>, p: seq<nat>) {
    forall i | 0 <= i < |p| - 1 :: Link(specs, p, i)
  }

  ghost predicate Link(specs: seq<Spec>, p: seq<nat>, i: nat)
    requires i < |p| - 1
  {
    DependsOn(specs, p[i + 1], p[i])
  }

  /**
    p leads from a task above v down to v, and c, which depends on its first task,
    asks for automatic edges; c is not v, and v does not depend on it.
   */
  ghost predicate Asks(specs: seq<Spec>, v: nat, p: seq<nat>, c: nat) {
    && |p| >= 2 && p[|p| - 1] == v && Chain(specs, p)
    && DependsOn(specs, c, p[0]) && specs[c].flagged && c != v && !DependsOn(specs, v, c)
  }

  lemma ChainIsPath(specs: seq<Spec>, v: nat, p: seq<nat>)
    requires |p| >= 2 && p[|p| - 1] == v
    ensures Chain(specs, p) <==> UpPath(BaseGraph(specs), v, p)
  {
    var g := BaseGraph(specs);
    forall i | 0 <= i < |p| - 1 ensures Link(specs, p, i) <==> HasEdge(g, p[i], p[i + 1]) { BaseEdgeIs(specs, p[i], p[i + 1]); }
    if Chain(specs, p) {
      forall i | 0 <= i < |p| ensures p[i] < |g.succ| { if i > 0 { assert Link(specs, p, i - 1); } else { assert Link(specs, p, 0); } }
      forall i | 0 <= i < |p| - 1 ensures StepAt(g, p, i) { assert Link(specs, p, i); }
    }
    if UpPath(g, v, p) {
      forall i | 0 <= i < |p| - 1 ensures Link(specs, p, i) { assert StepAt(g, p, i); }
    }
  }

  lemma AsksIsOffer(specs: seq<Spec>, v: nat, p: seq<nat>, c: nat)
    requires v < |specs|
    ensures Asks(specs, v, p, c) <==> Offers(BaseGraph(specs), Flags(specs), v, p, c)
  {
    var g := BaseGraph(specs);
    if |p| >= 2 && p[|p| - 1] == v {
      ChainIsPath(specs, v, p);
      BaseEdgeIs(specs, p[0], c);
      BaseEdgeIs(specs, c, v);
      assert Mirrored(g, c, v);
    }
  }

  /** Nothing depends on v, and v does not ask for automatic edges itself. */
  ghost predicate Loose(specs: seq<Spec>, v: nat) {
    v < |specs| && !specs[v].flagged && forall t: nat :: !DependsOn(specs, t, v)
  }

  lemma LooseIs(specs: seq<Spec>, v: nat)
    requires v < |specs|
    ensures Loose(specs, v) <==> BaseGraph(specs).succ[v] == [] && !Flags(specs)[v]
  {
    var g := BaseGraph(specs);
    forall t: nat ensures DependsOn(specs, t, v) <==> HasEdge(g, v, t) { BaseEdgeIs(specs, v, t); }
    if g.succ[v] != [] { assert HasEdge(g, v, g.succ[v][0]); }
  }

  /**
    The automatic edge of a task leads to a task that asks for it at the least
    distance; a task has none exactly if it is not loose or no task asks.
   */
  lemma AutoMeaning(specs: seq<Spec>, v: nat)
    requires SearchesEnd(specs) && v < |specs|
    ensures var r := Auto(BaseGraph(specs), Flags(specs), v);
      && (r.None? <==> !Loose(specs, v) || forall p: seq<nat>, c: nat :: !Asks(specs, v, p, c))
      && (r.Some? ==> exists p: seq<nat> ::
            Asks(specs, v, p, r.value) && forall q: seq<nat>, c: nat | |q| < |p| :: !Asks(specs, v, q, c))
  {
    var g, flags := BaseGraph(specs), Flags(specs);
    LooseIs(specs, v);
    forall p: seq<nat>, c: nat ensures Asks(specs, v, p, c) <==> Offers(g, flags, v, p, c) { AsksIsOffer(specs, v, p, c); }
    if Loose(specs, v) {
      SearchNearest(g, flags, v);
      if Search(g, flags, v).Some? {
        var p: seq<nat> :| Nearest(g, flags, v, p) && Offers(g, flags, v, p, Search(g, flags, v).value);
        assert Asks(specs, v, p, Search(g, flags, v).value);
      }
    }
  }

  /** An automatic edge is no loop, and never the reverse of a dependency or a dependency itself. */
  lemma AutoIsNew(specs: seq<Spec>, v: nat, c: nat)
    requires SearchesEnd(specs) && v < |specs| && Auto(BaseGraph(specs), Flags(specs), v) == Some(c)
    ensures c < |specs| && specs[c].flagged && !specs[v].flagged && c != v
    ensures !DependsOn(specs, v, c) && !DependsOn(specs, c, v)
  {
    AutoMeaning(specs, v);
    var p: seq<nat> :| Asks(specs, v, p, c);
    assert Loose(specs, v);
  }

  // ---- Among tasks at the same distance ----

  ghost predicate Ascending(s: seq<nat>, top: nat) {
    (forall i, j | 0 <= i < j < |s| :: s[i] < s[j]) && forall i | 0 <= i < |s| :: s[i] <= top
  }

  ghost predicate AllAscending(g: Digraph, top: nat) {
    forall u | 0 <= u < |g.succ| :: Ascending(g.succ[u], top)
  }

  lemma EdgeAscends(g: Digraph, u: nat, t: nat)
    requires GraphOk(g) && u < |g.succ| && t < |g.succ| && AllAscending(g, t)
    ensures AllAscending(AddEdge(g, u, t), t)
  {
    forall x | 0 <= x < |g.succ| ensures Ascending(AddEdge(g, u, t).succ[x], t) { assert Ascending(g.succ[x], t); }
  }

  lemma {:induction false} DepAscends(specs: seq<Spec>, g: Digraph, dep: string, t: nat, n: nat)
    requires GraphOk(g) && |g.succ| == |specs| && t < |specs| && n <= |specs| && AllAscending(g, t)
    ensures AllAscending(DepGraph(specs, g, dep, t, n), t)
  {
    if n > 0 {
      DepAscends(specs, g, dep, t, n - 1);
      if Matches(specs[n - 1], dep) { EdgeAscends(DepGraph(specs, g, dep, t, n - 1), n - 1, t); }
    }
  }

  lemma {:induction false} DepsAscend(specs: seq<Spec>, g: Digraph, t: nat, n: nat)
    requires GraphOk(g) && |g.succ| == |specs| && t < |specs| && n <= |specs[t].deps| && AllAscending(g, t)
    ensures AllAscending(DepsGraph(specs, g, t, n), t)
  {
    if n > 0 {
      DepsAscend(specs, g, t, n - 1);
      DepAscends(specs, DepsGraph(specs, g, t, n - 1), specs[t].deps[n - 1], t, |specs|);
    }
  }

  lemma {:induction false} BaseAscends(specs: seq<Spec>, n: nat, top: nat)
    requires n <= |specs| && n <= top + 1
    ensures AllAscending(BaseUpTo(specs, n), top)
  {
    if n > 0 {
      if n > 1 { BaseAscends(specs, n - 1, n - 1); }
      DepsAscend(specs, BaseUpTo(specs, n - 1), n - 1, |specs[n - 1].deps|);
      var g := BaseUpTo(specs, n);
      forall u | 0 <= u < |g.succ| ensures Ascending(g.succ[u], top) { assert Ascending(g.succ[u], n - 1); }
    }
  }

  /** Among the tasks that depend on the same task, the one listed first is found. */
  lemma {:induction false} FirstCandidateLeast(g: Digraph, flags: seq<bool>, v: nat, cs: seq<nat>, top: nat, c: nat)
    requires Ascending(cs, top) && c in cs && Candidate(g, flags, v, c)
    ensures FirstCandidate(g, flags, v, cs).Some? && FirstCandidate(g, flags, v, cs).value <= c
  {
    var i :| 0 <= i < |cs| && cs[i] == c;
    if !Candidate(g, flags, v, cs[0]) {
      assert cs[1..][i - 1] == c;
      assert Ascending(cs[1..], top);
      FirstCandidateLeast(g, flags, v, cs[1..], top, c);
    }
  }

  /** Where the search of a task found c below x, no earlier task that depends on x would have done. */
  lemma AutoFirstListed(specs: seq<Spec>, v: nat, x: nat, c: nat)
    requires SearchesEnd(specs) && v < |specs| && x < |specs|
    requires FirstCandidate(BaseGraph(specs), Flags(specs), v, BaseGraph(specs).succ[x]) == Some(c)
    ensures DependsOn(specs, c, x)
    ensures forall d: nat | d < c && DependsOn(specs, d, x) && specs[d].flagged && d != v :: DependsOn(specs, v, d)
  {
    var g, flags := BaseGraph(specs), Flags(specs);
    BaseAscends(specs, |specs|, |specs|);
    CandidateIs(g, flags, v, g.succ[x], c);
    BaseEdgeIs(specs, x, c);
    forall d: nat | d < c && DependsOn(specs, d, x) && specs[d].flagged && d != v ensures DependsOn(specs, v, d) {
      BaseEdgeIs(specs, x, d);
      BaseEdgeIs(specs, d, v);
      assert Mirrored(g, d, v);
      if !DependsOn(specs, v, d) { FirstCandidateLeast(g, flags, v, g.succ[x], |specs|, d); }
    }
  }
}
