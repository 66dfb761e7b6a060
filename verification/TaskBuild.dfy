/** The build: default dependencies, the sorted order, and the run that stops at the first failure. */
module TaskBuild {
  import opened Common
  import opened TaskGraph
  import opened TaskSort

  const CleanWork: string := "DS_CORE_CLEAN_WORK"

  // ---- Default dependencies ----

  function DefaultDep(cmdType: string): Option<string> {
    if cmdType == "host" then Some("DS_WORK_READY")
    else if cmdType == "vm" then Some("DS_VM_READY")
    else if cmdType == "cross" then Some("DS_CROSS_READY")
    else if cmdType == "target" then Some("DS_TARGET_CHROOT_READY")
    else if cmdType == "packagelist" then Some("DS_CORE_PACKAGELIST_PREP")
    else if cmdType == "packagelist-cross" then Some("DS_PACKAGELIST_CROSS_PREP")
    else None
  }

  /** The task with its default dependency; None for a type without one. */
  function WithDefault(s: Spec): Option<Spec> {
    if s.deps != [] || s.config == CleanWork then Some(s)
    else
      var d :- DefaultDep(s.cmdType);
      Some(s.(deps := [d]))
  }

  ghost predicate AllDefaulted(before: seq<Spec>, after: seq<Spec>) {
    |after| == |before| && forall t | 0 <= t < |before| :: WithDefault(before[t]) == Some(after[t])
  }

  /** Only the cleanup of the work directory may do without dependencies. */
  ghost predicate HasDeps(specs: seq<Spec>) {
    forall t | 0 <= t < |specs| :: specs[t].deps != [] || specs[t].config == CleanWork
  }

  lemma DefaultedHasDeps(before: seq<Spec>, after: seq<Spec>)
    requires AllDefaulted(before, after)
    ensures HasDeps(after)
  {
    forall t | 0 <= t < |after| ensures after[t].deps != [] || after[t].config == CleanWork {
      assert WithDefault(before[t]) == Some(after[t]);
    }
  }

  /** Only dependencies are set, and only where there are none, except for the cleanup task: one for each type of task. */
  lemma DefaultsMeaning(before: seq<Spec>, after: seq<Spec>, t: nat)
    requires AllDefaulted(before, after) && t < |before|
    ensures after[t] == before[t].(deps := after[t].deps)
    ensures before[t].deps != [] || before[t].config == "DS_CORE_CLEAN_WORK" ==> after[t] == before[t]
    ensures before[t].deps == [] && before[t].config != "DS_CORE_CLEAN_WORK" ==>
      var kind := before[t].cmdType;
      || (kind == "host" && after[t].deps == ["DS_WORK_READY"])
      || (kind == "vm" && after[t].deps == ["DS_VM_READY"])
      || (kind == "cross" && after[t].deps == ["DS_CROSS_READY"])
      || (kind == "target" && after[t].deps == ["DS_TARGET_CHROOT_READY"])
      || (kind == "packagelist" && after[t].deps == ["DS_CORE_PACKAGELIST_PREP"])
      || (kind == "packagelist-cross" && after[t].deps == ["DS_PACKAGELIST_CROSS_PREP"])
  {
    assert WithDefault(before[t]) == Some(after[t]);
  }

  method SetDefaults(tasks: seq<Task>) returns (r: Result<()>)
    requires NoDup(tasks)
    modifies tasks
    ensures r.Ok? <==> forall t | 0 <= t < |tasks| :: WithDefault(old(tasks[t].View())).Some?
    ensures r.Ok? ==> AllDefaulted(old(Views(tasks)), Views(tasks))
  {
    for i := 0 to |tasks|
      invariant forall t | 0 <= t < i :: WithDefault(old(tasks[t].View())) == Some(tasks[t].View())
      invariant forall t | i <= t < |tasks| :: tasks[t].View() == old(tasks[t].View())
    {
      if tasks[i].deps == [] && tasks[i].config != CleanWork {
        var d := DefaultDep(tasks[i].cmdType);
        if d.None? { return Err(InvalidType(i)); }
        tasks[i].deps := tasks[i].deps + [d.value];
        assert tasks[i].deps == [d.value];
      }
    }
    r := Ok(());
  }

  // ---- The run ----

  /** What running a task does: it returns, raises an ordinary exception, or is interrupted. */
  datatype Ending = Returns | Raises | Interrupted

  datatype Status = Running | Passed | Failed

  datatype Record = Record(task: Task, status: Status)

  /** Every status but the last is Passed, and none is Running. */
  ghost predicate StoppedAtFailure(statuses: seq<Status>) {
    && (forall k | 0 <= k < |statuses| - 1 :: statuses[k] == Passed)
    && (forall k | 0 <= k < |statuses| :: statuses[k] != Running)
  }

  function Statuses(records: seq<Record>): (ss: seq<Status>)
    ensures |ss| == |records| && forall k | 0 <= k < |ss| :: ss[k] == records[k].status
  {
    seq(|records|, k requires 0 <= k < |records| => records[k].status)
  }

  ghost predicate RanInOrder(records: seq<Record>, tasks: seq<Task>) {
    |records| <= |tasks| && forall k | 0 <= k < |records| :: records[k].task == tasks[k]
  }

  /** `endings` says how the run of each task would end; a dry run only prints. */
  method Run(tasks: seq<Task>, endings: seq<Ending>, dryRun: bool) returns (records: seq<Record>, pass: bool)
    requires |endings| == |tasks|
    ensures StoppedAtFailure(Statuses(records)) && RanInOrder(records, tasks)
    ensures pass <==> |records| == |tasks| && forall k | 0 <= k < |records| :: records[k].status == Passed
    ensures pass <==> dryRun || forall k | 0 <= k < |tasks| :: endings[k] == Returns
  {
    records := [];
    var going := true;
    var i := 0;
    while i < |tasks| && going
      invariant 0 <= i <= |tasks| && |records| == i && RanInOrder(records, tasks)
      invariant forall k | 0 <= k < i - (if going then 0 else 1) :: records[k].status == Passed && (dryRun || endings[k] == Returns)
      invariant !going ==> i > 0 && records[i - 1].status != Passed && !dryRun && endings[i - 1] != Returns
    {
      records := records + [Record(tasks[i], Running)];
      if dryRun || endings[i] == Returns {
        records := records[i := Record(tasks[i], Passed)];
      } else {
        if endings[i] == Raises { records := records[i := Record(tasks[i], Failed)]; }
        going := false;
      }
      i := i + 1;
    }
    // The clean-up that always runs: whatever is still marked as running has failed.
    records := seq(|records|, k requires 0 <= k < |records| =>
      if records[k].status == Running then Record(records[k].task, Failed) else records[k]);
    pass := going;
  }

  /** Task t waits for task s: s satisfies a dependency of t, or t is the barrier of s. */
  ghost predicate WaitsOn(specs: seq<Spec>, t: nat, s: nat)
    requires SearchesEnd(specs)
  {
    DependsOn(specs, t, s) || (s < |specs| && Auto(BaseGraph(specs), Flags(specs), s) == Some(t))
  }

  /** Whenever the k-th task was started, everything it waits for had passed. */
  lemma StartedSafely(specs: seq<Spec>, statuses: seq<Status>, k: nat, s: nat)
    requires Sortable(specs) && StoppedAtFailure(statuses) && k < |statuses| <= |Order(specs)|
    requires WaitsOn(specs, Order(specs)[k], s)
    ensures exists j | 0 <= j < k :: Order(specs)[j] == s && statuses[j] == Passed
  {
    var order := Order(specs);
    DependenciesFirst(specs, s, order[k]);
    OrderPermutes(specs);
    var i, l :| 0 <= i < l < |order| && order[i] == s && order[l] == order[k];
    assert l == k;
  }

  /** Task s passed before the k-th task was started. */
  predicate PassedBefore(tasks: seq<Task>, records: seq<Record>, k: nat, s: nat) {
    k <= |records| && s < |tasks| && Record(tasks[s], Passed) in records[..k]
  }

  /** The records follow the order, and each task comes after the passed records of all it waits for. */
  ghost predicate SafeRun(specs: seq<Spec>, tasks: seq<Task>, records: seq<Record>) {
    && SearchesEnd(specs) && |records| <= |Order(specs)| == |tasks|
    && (forall k | 0 <= k < |records| :: Order(specs)[k] < |tasks| && records[k].task == tasks[Order(specs)[k]])
    && (forall k, s: nat | 0 <= k < |records| && WaitsOn(specs, Order(specs)[k], s) :: PassedBefore(tasks, records, k, s))
  }

  lemma WaitedPassed(specs: seq<Spec>, tasks: seq<Task>, sorted: seq<Task>, records: seq<Record>, k: nat, s: nat)
    requires Sortable(specs) && |tasks| == |specs| && ArrangedBy(sorted, tasks, Order(specs))
    requires RanInOrder(records, sorted) && StoppedAtFailure(Statuses(records))
    requires k < |records| && WaitsOn(specs, Order(specs)[k], s)
    ensures PassedBefore(tasks, records, k, s)
  {
    StartedSafely(specs, Statuses(records), k, s);
    var j :| 0 <= j < k && Order(specs)[j] == s && Statuses(records)[j] == Passed;
    assert records[..k][j] == records[j] == Record(tasks[s], Passed);
  }

  lemma OrderedRunSafe(specs: seq<Spec>, tasks: seq<Task>, sorted: seq<Task>, records: seq<Record>)
    requires Sortable(specs) && |tasks| == |specs| && ArrangedBy(sorted, tasks, Order(specs))
    requires RanInOrder(records, sorted) && StoppedAtFailure(Statuses(records))
    ensures SafeRun(specs, tasks, records)
  {
    OrderPermutes(specs);
    forall k, s: nat | 0 <= k < |records| && WaitsOn(specs, Order(specs)[k], s)
      ensures PassedBefore(tasks, records, k, s)
    {
      WaitedPassed(specs, tasks, sorted, records, k, s);
    }
  }

  method SortAndRun(tasks: seq<Task>, endings: seq<Ending>, dryRun: bool) returns (r: Result<seq<Record>>)
    requires NoDup(tasks) && |endings| == |tasks|
    requires AllMatched(Views(tasks)) ==> SearchesEnd(Views(tasks))
    modifies tasks
    ensures Views(tasks) == old(Views(tasks))
    ensures r.Ok? <==> Sortable(Views(tasks))
    ensures r.Ok? ==> StoppedAtFailure(Statuses(r.value)) && SafeRun(Views(tasks), tasks, r.value)
  {
    ghost var specs := Views(tasks);
    var sorted := Sort(tasks);
    if sorted.Err? { return Err(sorted.why); }
    OrderPermutes(specs);
    var records, pass := Run(sorted.value, endings, dryRun);
    OrderedRunSafe(specs, tasks, sorted.value, records);
    r := Ok(records);
  }

  lemma EachHasDefault(before: seq<Spec>, after: seq<Spec>)
    requires AllDefaulted(before, after)
    ensures forall t | 0 <= t < |before| :: WithDefault(before[t]).Some?
  {
  }

  method Build(tasks: seq<Task>, endings: seq<Ending>, dryRun: bool) returns (r: Result<seq<Record>>)
    requires NoDup(tasks) && |endings| == |tasks|
    requires forall specs | AllDefaulted(Views(tasks), specs) && AllMatched(specs) :: SearchesEnd(specs)
    modifies tasks
    ensures r.Ok? ==> AllDefaulted(old(Views(tasks)), Views(tasks)) && Sortable(Views(tasks))
    ensures AllDefaulted(old(Views(tasks)), Views(tasks)) && Sortable(Views(tasks)) ==> r.Ok?
    ensures r.Ok? ==> StoppedAtFailure(Statuses(r.value)) && SafeRun(Views(tasks), tasks, r.value)
    ensures r.Ok? ==> HasDeps(Views(tasks)) && (r.value != [] ==> r.value[0].task.config == CleanWork)
  {
    ghost var before := Views(tasks);
    var defaults := SetDefaults(tasks);
    if defaults.Err? {
      if AllDefaulted(before, Views(tasks)) { EachHasDefault(before, Views(tasks)); }
      return Err(defaults.why);
    }
    DefaultedHasDeps(before, Views(tasks));
    r := SortAndRun(tasks, endings, dryRun);
    if r.Ok? && r.value != [] { FirstIsCleanup(Views(tasks)); }
  }

  // ---- Cleaning up comes first ----

  lemma SourceIsCleanup(specs: seq<Spec>, t: nat)
    requires SearchesEnd(specs) && AllMatched(specs) && HasDeps(specs) && t < |specs|
    requires TaskDigraph(specs).pred[t] == []
    ensures specs[t].config == CleanWork && specs[t].deps == []
  {
    var g := TaskDigraph(specs);
    if specs[t].deps != [] {
      assert TaskMatched(specs, t, |specs[t].deps|) && Matched(specs, specs[t].deps[0]);
      var s: nat :| s < |specs| && Matches(specs[s], specs[t].deps[0]);
      assert DependsOn(specs, t, s);
      assert Mirrored(g, s, t);
      TaskEdgeIs(specs, s, t);
    }
  }

  /** p leads from a cleanup task without dependencies to t. */
  ghost predicate CleanedBy(specs: seq<Spec>, p: seq<nat>, t: nat)
    requires SearchesEnd(specs)
  {
    && Path(TaskDigraph(specs), p) && p[|p| - 1] == t
    && p[0] < |specs| && specs[p[0]].config == CleanWork && specs[p[0]].deps == []
    && TaskDigraph(specs).pred[p[0]] == []
  }

  /** Every task depends, through a chain of edges, on a cleanup task, or is one itself. */
  lemma {:induction false} CleanupAbove(specs: seq<Spec>, i: nat) returns (p: seq<nat>)
    requires Sortable(specs) && HasDeps(specs) && i < |Order(specs)|
    ensures CleanedBy(specs, p, Order(specs)[i])
    decreases i
  {
    var g, order := TaskDigraph(specs), Order(specs);
    OrderPermutes(specs);
    assert order[i] in order;
    var t := order[i];
    if g.pred[t] == [] {
      SourceIsCleanup(specs, t);
      p := [t];
    } else {
      var u := g.pred[t][0];
      assert u in g.pred[t] && Mirrored(g, u, t);
      OrderForward(specs, u, t);
      var j, k :| 0 <= j < k < |order| && order[j] == u && order[k] == t;
      assert k == i;
      var q := CleanupAbove(specs, j);
      PathAppend(g, q, t);
      p := q + [t];
    }
  }

  /** Only cleanup tasks have nothing before them in the graph; every other task depends on one and runs after it. */
  lemma CleanupFirst(specs: seq<Spec>, t: nat)
    requires Sortable(specs) && HasDeps(specs) && t < |specs|
    ensures TaskDigraph(specs).pred[t] == [] ==> specs[t].config == CleanWork && specs[t].deps == []
    ensures TaskDigraph(specs).pred[t] != [] ==>
              exists p: seq<nat> :: CleanedBy(specs, p, t) && Before(Order(specs), p[0], t)
  {
    var g, order := TaskDigraph(specs), Order(specs);
    OrderPermutes(specs);
    assert t in order;
    var i :| 0 <= i < |order| && order[i] == t;
    if g.pred[t] == [] { SourceIsCleanup(specs, t); }
    var p := CleanupAbove(specs, i);
    AllForward(specs);
    if g.pred[t] != [] { PathForward(g, order, p); }
  }

  lemma NothingBeforeFirst(order: seq<nat>, a: nat)
    requires NoDup(order) && order != []
    ensures !Before(order, a, order[0])
  {
  }

  /** The build starts with a cleanup task. */
  lemma FirstIsCleanup(specs: seq<Spec>)
    requires Sortable(specs) && HasDeps(specs) && specs != []
    ensures |Order(specs)| > 0 && Order(specs)[0] < |specs| && specs[Order(specs)[0]].config == CleanWork
  {
    var g, order := TaskDigraph(specs), Order(specs);
    OrderPermutes(specs);
    assert order[0] in order;
    var p := CleanupAbove(specs, 0);
    AllForward(specs);
    NothingBeforeFirst(order, p[0]);
    if |p| >= 2 { PathForward(g, order, p); }
  }
}
