/**
  Small task lists: one on which building the graph never ends, one on which listed
  order is not kept, and one on which a task must not wait for what it depends on.
 */
module TaskExamples {
  import opened Common
  import opened TaskGraph
  import opened TaskAuto
  import opened TaskSort

  function Plain(config: string, deps: seq<string>): Spec {
    Spec(config, "", "host", deps, false)
  }

  /** X and Y depend on each other, and L depends on X. */
  function LoopedTasks(): seq<Spec> {
    [Plain("X", ["Y"]), Plain("Y", ["X"]), Plain("L", ["X"])]
  }

  lemma LoopedEdges(s: nat, t: nat)
    ensures DependsOn(LoopedTasks(), t, s) <==> (s, t) == (1, 0) || (s, t) == (0, 1) || (s, t) == (0, 2)
  {
    var specs := LoopedTasks();
    if t < 3 && s < 3 {
      assert DependsOn(specs, t, s) <==> Matches(specs[s], specs[t].deps[0]);
      assert "X"[0] != "Y"[0] && "L"[0] != "X"[0] && "L"[0] != "Y"[0];
    }
  }

  /** The search above L goes round the loop of X and Y for ever, before the loop could be reported. */
  lemma SearchHangs()
    ensures !SearchesEnd(LoopedTasks()) && Cyclic(BaseGraph(LoopedTasks()))
  {
    var specs := LoopedTasks();
    var g, flags := BaseGraph(specs), Flags(specs);
    forall s: nat, t: nat ensures HasEdge(g, s, t) <==> (s, t) == (1, 0) || (s, t) == (0, 1) || (s, t) == (0, 2) {
      BaseEdgeIs(specs, s, t);
      LoopedEdges(s, t);
    }
    var up, loop := [0, 2], [0, 1, 0];
    assert StepAt(g, up, 0) && UpPath(g, 2, up);
    assert StepAt(g, loop, 0) && StepAt(g, loop, 1) && Loop(g, loop);
    assert loop[0] == up[0];
    assert LoopAbove(g, 2);
    EndsIff(g, flags, 2);
    assert forall c: nat | c < 3 :: !flags[c];
    if g.succ[2] != [] { var v := EdgeOut(g, 2); }
    assert g.succ[2] == [] && !flags[2];
  }

  lemma EdgeOut(g: Digraph, u: nat) returns (v: nat)
    requires u < |g.succ| && g.succ[u] != []
    ensures HasEdge(g, u, v)
  {
    v := g.succ[u][0];
  }

  /** A and B belong to one manifest and both depend on R only; A is flagged and listed first; L depends on B. */
  function FlaggedFirst(): seq<Spec> {
    [Plain("R", []), Spec("M", "", "host", ["R"], true), Spec("M", "B", "host", ["R"], false), Plain("L", ["B"])]
  }

  lemma FlaggedEdges(s: nat, t: nat)
    ensures DependsOn(FlaggedFirst(), t, s) <==> (s, t) == (0, 1) || (s, t) == (0, 2) || (s, t) == (2, 3)
  {
    var specs := FlaggedFirst();
    if t < 4 && s < 4 {
      if t > 0 { assert DependsOn(specs, t, s) <==> Matches(specs[s], specs[t].deps[0]); }
      assert "R"[0] == 'R' && "M"[0] == 'M' && "B"[0] == 'B' && "L"[0] == 'L';
    }
  }

  /** The barrier of L is A, so B and L run before A although A is listed before B. */
  lemma FlaggedOvertaken()
    ensures Sortable(FlaggedFirst())
    ensures FlaggedFirst()[1].config == FlaggedFirst()[2].config && FlaggedFirst()[1].deps == FlaggedFirst()[2].deps
    ensures Before(Order(FlaggedFirst()), 2, 1)
  {
    var specs := FlaggedFirst();
    FlaggedSearch();
    FlaggedSortable();
    OrderPermutes(specs);
    FlaggedEdges(2, 3);
    DependenciesFirst(specs, 2, 3);
    DependenciesFirst(specs, 3, 1);
    BeforeTrans(Order(specs), 2, 3, 1);
  }

  lemma FlaggedSearch()
    ensures SearchesEnd(FlaggedFirst()) && Auto(BaseGraph(FlaggedFirst()), Flags(FlaggedFirst()), 3) == Some(1)
  {
    var specs := FlaggedFirst();
    var g, flags := BaseGraph(specs), Flags(specs);
    forall s: nat, t: nat ensures HasEdge(g, s, t) <==> (s, t) == (0, 1) || (s, t) == (0, 2) || (s, t) == (2, 3) {
      BaseEdgeIs(specs, s, t);
      FlaggedEdges(s, t);
    }
    RankedAcyclic(g, [0, 3, 1, 2]);
    AcyclicAllEnd(g, flags);
    var p := [0, 2, 3];
    assert StepAt(g, p, 0) && StepAt(g, p, 1) && UpPath(g, 3, p);
    assert Mirrored(g, 1, 3);
    assert Offers(g, flags, 3, p, 1);
    if g.succ[3] != [] { var v := EdgeOut(g, 3); }
    SearchNearest(g, flags, 3);
    FoundIs(g, flags, 3);
  }

  lemma FlaggedSortable()
    requires SearchesEnd(FlaggedFirst()) && Auto(BaseGraph(FlaggedFirst()), Flags(FlaggedFirst()), 3) == Some(1)
    ensures Sortable(FlaggedFirst())
  {
    var g := TaskDigraph(FlaggedFirst());
    forall s: nat, t: nat | HasEdge(g, s, t) ensures s < 4 && t < 4 && [0, 3, 1, 2][s] < [0, 3, 1, 2][t] {
      FlaggedClimbs(s, t);
    }
    RankedAcyclic(g, [0, 3, 1, 2]);
    FlaggedMatched();
  }

  lemma FlaggedClimbs(s: nat, t: nat)
    requires SearchesEnd(FlaggedFirst()) && Auto(BaseGraph(FlaggedFirst()), Flags(FlaggedFirst()), 3) == Some(1)
    requires HasEdge(TaskDigraph(FlaggedFirst()), s, t)
    ensures (s, t) == (0, 1) || (s, t) == (0, 2) || (s, t) == (2, 3) || (s, t) == (3, 1)
  {
    var specs := FlaggedFirst();
    TaskEdgeIs(specs, s, t);
    FlaggedEdges(s, t);
    if s < 4 && Auto(BaseGraph(specs), Flags(specs), s) == Some(t) { FlaggedAuto(s); }
  }

  lemma FlaggedMatched()
    ensures AllMatched(FlaggedFirst())
  {
    var specs := FlaggedFirst();
    assert Matches(specs[0], "R") && Matches(specs[2], "B");
    forall t | 0 <= t < 4 ensures TaskMatched(specs, t, |specs[t].deps|) {
      if t > 0 { assert Matched(specs, specs[t].deps[0]); }
    }
  }

  /** Only L is looking for a barrier. */
  lemma FlaggedAuto(s: nat)
    requires SearchesEnd(FlaggedFirst()) && s < 4 && Auto(BaseGraph(FlaggedFirst()), Flags(FlaggedFirst()), s).Some?
    ensures s == 3
  {
    var specs := FlaggedFirst();
    BaseEdgeIs(specs, 0, 1);
    FlaggedEdges(0, 1);
    BaseEdgeIs(specs, 2, 3);
    FlaggedEdges(2, 3);
    assert Flags(specs)[1];
  }

  /** A asks for automatic edges and depends on R; L depends on A. */
  function ChainTasks(): seq<Spec> {
    [Plain("R", []), Spec("A", "", "host", ["R"], true), Plain("L", ["A"])]
  }

  lemma ChainEdges(s: nat, t: nat)
    ensures DependsOn(ChainTasks(), t, s) <==> (s, t) == (0, 1) || (s, t) == (1, 2)
  {
    var specs := ChainTasks();
    if t < 3 && s < 3 {
      if t > 0 { assert DependsOn(specs, t, s) <==> Matches(specs[s], specs[t].deps[0]); }
      assert "R"[0] == 'R' && "A"[0] == 'A' && "L"[0] == 'L';
    }
  }

  /** L is not made to run before A, on which it depends: there is no automatic edge, and the list can be sorted. */
  lemma ProviderSkipped()
    ensures Sortable(ChainTasks())
    ensures forall v: nat | v < 3 :: Auto(BaseGraph(ChainTasks()), Flags(ChainTasks()), v).None?
  {
    var specs := ChainTasks();
    ChainEnds();
    forall v: nat | v < 3 ensures Auto(BaseGraph(specs), Flags(specs), v).None? { ChainAuto(v); }
    var g := TaskDigraph(specs);
    forall s: nat, t: nat | HasEdge(g, s, t) ensures s < 3 && t < 3 && [0, 1, 2][s] < [0, 1, 2][t] {
      TaskEdgeIs(specs, s, t);
      ChainEdges(s, t);
    }
    RankedAcyclic(g, [0, 1, 2]);
    ChainMatched();
  }

  lemma ChainEnds()
    ensures SearchesEnd(ChainTasks())
  {
    var specs := ChainTasks();
    forall s: nat, t: nat | HasEdge(BaseGraph(specs), s, t) ensures s < 3 && t < 3 && [0, 1, 2][s] < [0, 1, 2][t] {
      BaseEdgeIs(specs, s, t);
      ChainEdges(s, t);
    }
    RankedAcyclic(BaseGraph(specs), [0, 1, 2]);
    AcyclicAllEnd(BaseGraph(specs), Flags(specs));
  }

  lemma ChainAuto(v: nat)
    requires SearchesEnd(ChainTasks()) && v < 3
    ensures Auto(BaseGraph(ChainTasks()), Flags(ChainTasks()), v).None?
  {
    var specs := ChainTasks();
    ChainEdges(0, 1);
    ChainEdges(1, 2);
    assert !specs[0].flagged && !specs[2].flagged;
    AutoMeaning(specs, v);
    forall p: seq<nat>, c: nat | v == 2 ensures !Asks(specs, v, p, c) { assert c < 3 && c != 1 ==> !specs[c].flagged; }
  }

  lemma ChainMatched()
    ensures AllMatched(ChainTasks())
  {
    var specs := ChainTasks();
    assert Matches(specs[0], "R") && Matches(specs[1], "A");
    forall t | 0 <= t < 3 ensures TaskMatched(specs, t, |specs[t].deps|) {
      if t > 0 { assert Matched(specs, specs[t].deps[0]); }
    }
  }

  lemma RankedAcyclic(g: Digraph, rank: seq<nat>)
    requires forall s: nat, t: nat | HasEdge(g, s, t) :: s < |rank| && t < |rank| && rank[s] < rank[t]
    ensures !Cyclic(g)
  {
    if Cyclic(g) {
      var p: seq<nat> :| Loop(g, p);
      PathClimbs(g, rank, p);
    }
  }

  lemma {:induction false} PathClimbs(g: Digraph, rank: seq<nat>, p: seq<nat>)
    requires forall s: nat, t: nat | HasEdge(g, s, t) :: s < |rank| && t < |rank| && rank[s] < rank[t]
    requires Path(g, p) && |p| >= 2
    ensures p[0] < |rank| && p[|p| - 1] < |rank| && rank[p[0]] < rank[p[|p| - 1]]
  {
    assert StepAt(g, p, 0);
    if |p| > 2 {
      var q := p[1..];
      forall i | 0 <= i < |q| - 1 ensures StepAt(g, q, i) { assert StepAt(g, p, i + 1); }
      PathClimbs(g, rank, q);
    }
  }
}
