/**
 Jobs get done: running the tasks of a stage is an execution of the stage, and every query whose
 operators have results can be executed to its last stage.
 */
module JobProgress {
  import opened Wrappers
  import opened Plans
  import opened Planner
  import opened StageStructure
  import opened Semantics
  import opened StageCorrectness
  import opened TaskResults
  import opened Shuffle
  import opened Exchange
  import opened Resolution
  import opened QueryExecution

  // ---------- Running a stage ----------

  /**
   Tasks may write the table: each partition is that of some result of the resolved stage, and there are
   as many as the planner counts on.
   */
  ghost predicate MayWrite(engine: Engine, cat: Catalog, s: Progress, stage: Plan, written: Table) {
    && stage.op.ShuffleWriter? && |stage.children| == 1 && Writable(stage.op.shuffleOutputPartitioning)
    && Resolve(stage, s.locations).Success?
    && TaskWise(engine, Context(map[], s.files), Resolve(stage, s.locations).value, written)
    && |written| == PartitionCount(cat, stage.children[0])
  }

  /**
   Running the tasks of a stage, each on its own evaluation of the plan, is an execution of the stage, and
   succeeds if and only if every task's input does.
   */
  method RunStage(
    engine: Engine, ghost cat: Catalog, jobId: string, ghost s: Progress, stage: Plan, tasks: seq<Task>, written: Table)
    returns (r: Result<StageRun, string>)
    requires MayWrite(engine, cat, s, stage, written) && TasksOf(tasks, written)
    requires forall i :: 0 <= i < |tasks| ==> CanSplit(stage.op.shuffleOutputPartitioning, tasks[i].stream)
    ensures r.Success? <==> forall i :: 0 <= i < |tasks| ==> tasks[i].stream.error.None?
    ensures r.Success? ==>
              && StageExecutes(engine, cat, jobId, s, r.value)
              && r.value.stage == stage && r.value.tasks == tasks && r.value.written == written
              && AllReports(engine, jobId, stage.op.stageId, stage.op.shuffleOutputPartitioning, tasks,
                            r.value.locations)
  {
    var id, partitioning := stage.op.stageId, stage.op.shuffleOutputPartitioning;
    var locations, files := RunTasks(engine, jobId, id, partitioning, tasks, written);
    match locations {
      case Failure(e) => r := Failure(e);
      case Success(ls) =>
        forall path | path in files ensures FileOfStage(jobId, id, path) {
          TaskFileOfStage(jobId, id, partitioning, tasks, path);
        }
        r := Success(StageRun(stage, tasks, written, ls, files));
    }
  }

  /** One task for every partition. */
  lemma TasksFor(written: Table) returns (tasks: seq<Task>)
    ensures TasksOf(tasks, written)
  {
    tasks := seq(|written|, t requires 0 <= t < |written| => Task(t, "", "", Stream([written[t]], None)));
    forall t | 0 <= t < |written|
      ensures Rows(tasks[t].stream.batches) == written[t] && t in Done(tasks)
    {
      assert tasks[t].inputPartition == t;
      assert [written[t]][..0] == [];
    }
  }

  /** A table that tasks may write is written by some execution of the stage. */
  lemma StageCanRun(engine: Engine, cat: Catalog, jobId: string, s: Progress, stage: Plan, written: Table)
    returns (run: StageRun)
    requires MayWrite(engine, cat, s, stage, written)
    ensures StageExecutes(engine, cat, jobId, s, run) && run.stage == stage && run.written == written
  {
    var id, partitioning := stage.op.stageId, stage.op.shuffleOutputPartitioning;
    var tasks := TasksFor(written);
    var locations, files := TasksCanBeWritten(engine, jobId, id, partitioning, written, tasks);
    AllTasksWritten(engine, jobId, id, partitioning, written, tasks, locations, files);
    forall path | path in files ensures FileOfStage(jobId, id, path) {
      TaskFileOfStage(jobId, id, partitioning, tasks, path);
    }
    run := StageRun(stage, tasks, written, locations, files);
  }

  // ---------- Plans have results ----------

  function Counts(ins: seq<Table>): seq<nat> {
    seq(|ins|, i requires 0 <= i < |ins| => |ins[i]|)
  }

  ghost predicate Operates(engine: Engine, cat: Catalog, op: Operator, ins: seq<Table>) {
    exists out :: engine.operate(op, ins, out) && |out| == cat.partitions(op, Counts(ins))
  }

  ghost predicate Merges(engine: Engine, ordering: string, input: Table) {
    exists rows :: engine.merge(ordering, input, rows)
  }

  /** Operators and merges have a result on every input, with the partitions the catalog says. */
  ghost predicate Total(engine: Engine, cat: Catalog) {
    && (forall op, ins :: Operates(engine, cat, op, ins))
    && (forall ordering, input :: Merges(engine, ordering, input))
  }

  /** All the files that the readers of a plan ask for are there. */
  predicate FilesPresent(p: Plan, files: Files) {
    && (p.op.ShuffleReader? ==>
          forall q, l :: 0 <= q < |p.op.partition| && l in p.op.partition[q] ==> l.path in files)
    && forall i :: 0 <= i < |p.children| ==> FilesPresent(p.children[i], files)
  }

  predicate NoReference(p: Plan) {
    !p.op.UnresolvedShuffle? && forall i :: 0 <= i < |p.children| ==> NoReference(p.children[i])
  }

  predicate NoRepartition(p: Plan) {
    !p.op.Repartition? && forall i :: 0 <= i < |p.children| ==> NoRepartition(p.children[i])
  }

  /** A plan that can be run: its references are resolved to files that are there. */
  predicate Runnable(p: Plan, files: Files) {
    WellFormed(p) && NoReference(p) && NoRepartition(p) && FilesPresent(p, files)
  }

  lemma {:induction false} HasResult(engine: Engine, cat: Catalog, p: Plan, files: Files) returns (out: Table)
    requires Total(engine, cat) && Runnable(p, files) && NoWriter(p)
    ensures Denotes(engine, Context(map[], files), p, out) && |out| == PartitionCount(cat, p)
    decreases p, 1
  {
    var ctx := Context(map[], files);
    if p.op.ShuffleReader? {
      out := ReaderResult(p.op.partition, files);
    } else {
      var ins := HaveResults(engine, cat, p.children, files);
      out := OperatorResult(engine, cat, p.op, ins);
      assert Counts(ins) == PartitionCounts(cat, p.children);
    }
  }

  predicate NoWriter(p: Plan) {
    !p.op.ShuffleWriter? && forall i :: 0 <= i < |p.children| ==> NoWriter(p.children[i])
  }

  lemma ReaderResult(partition: seq<seq<PartitionLocation>>, files: Files) returns (out: Table)
    requires forall q, l :: 0 <= q < |partition| && l in partition[q] ==> l.path in files
    ensures |out| == |partition| && forall q :: 0 <= q < |partition| ==> FetchedInSomeOrder(files, partition[q], out[q])
  {
    out := seq(|partition|, q requires 0 <= q < |partition| => Fetched(files, partition[q]));
  }

  lemma OperatorResult(engine: Engine, cat: Catalog, op: Operator, ins: seq<Table>) returns (out: Table)
    requires Total(engine, cat) && !IsShuffle(op) && !op.Repartition? && (IsUnary(op) ==> |ins| == 1)
    ensures Applies(engine, op, ins, out)
    ensures |out| == if op.CoalescePartitions? || op.SortPreservingMerge? then 1 else cat.partitions(op, Counts(ins))
  {
    if op.CoalescePartitions? {
      out := [Rows(ins[0])];
    } else if op.SortPreservingMerge? {
      assert Merges(engine, op.ordering, ins[0]);
      var rows :| engine.merge(op.ordering, ins[0], rows);
      out := [rows];
    } else {
      assert Operates(engine, cat, op, ins);
      out :| engine.operate(op, ins, out) && |out| == cat.partitions(op, Counts(ins));
    }
  }

  lemma {:induction false} HaveResults(engine: Engine, cat: Catalog, ps: seq<Plan>, files: Files)
    returns (outs: seq<Table>)
    requires Total(engine, cat) && forall i :: 0 <= i < |ps| ==> Runnable(ps[i], files) && NoWriter(ps[i])
    ensures DenotesAll(engine, Context(map[], files), ps, outs)
    ensures forall i :: 0 <= i < |ps| ==> |outs[i]| == PartitionCount(cat, ps[i])
    decreases ps, 0
  {
    outs := [];
    if ps != [] {
      var front, last := ps[..|ps| - 1], ps[|ps| - 1];
      var before := HaveResults(engine, cat, front, files);
      var out := HasResult(engine, cat, last, files);
      outs := before + [out];
      DenotesAllSnoc(engine, Context(map[], files), front, last, outs);
      assert ps == front + [last];
    }
  }

  // ---------- Resolved stages can be run ----------

  /** The files of every referenced stage are there. */
  ghost predicate AllLocated(us: seq<Operator>, s: Progress)
    requires forall u :: u in us ==> u.UnresolvedShuffle?
  {
    forall u :: u in us ==>
      u.stageId in s.locations && FilesPresent(ReaderFor(u, s.locations[u.stageId]), s.files)
  }

  lemma LocatedFilesPresent(
    engine: Engine, cat: Catalog, jobId: string, done: seq<Plan>, s: Progress, us: seq<Operator>)
    requires Consistent(engine, cat, jobId, done, s)
    requires (forall u :: u in us ==> u.UnresolvedShuffle?) && NamesAll(cat, us, done)
    ensures AllLocated(us, s)
  {
    forall u | u in us
      ensures u.stageId in s.locations && FilesPresent(ReaderFor(u, s.locations[u.stageId]), s.files)
    {
      var i :| 0 <= i < |done| && Names(cat, u, done[i]);
      assert Recorded(engine, cat, done[i], s.locations, s.files, s.outputs);
      var output, locations := s.outputs[u.stageId], s.locations[u.stageId];
      forall q: nat, l | l in LocationsAt(locations, q) ensures l.path in s.files {
        assert HoldsContributions(engine, output.partitioning, output.written, Upto(|output.written|), q,
                                  LocationsAt(locations, q), s.files);
      }
    }
  }

  /** A part of a stage as the planner makes it. */
  predicate Plannable(p: Plan) {
    WellFormed(p) && NoWriter(p) && NoRepartition(p) && HasNoReader(p)
  }

  lemma {:induction false} ResolvedCanBeRun(s: Progress, p: Plan)
    requires Plannable(p) && AllLocated(FindUnresolvedShuffles(p), s)
    ensures ResolveChild(p, s.locations).Success?
    ensures var q := ResolveChild(p, s.locations).value; Runnable(q, s.files) && NoWriter(q)
    decreases p, 1
  {
    if p.op.UnresolvedShuffle? {
      assert p.op in FindUnresolvedShuffles(p);
    } else {
      ResolvedForestCanBeRun(s, p.children);
    }
  }

  lemma {:induction false} ResolvedForestCanBeRun(s: Progress, ps: seq<Plan>)
    requires (forall i :: 0 <= i < |ps| ==> Plannable(ps[i])) && AllLocated(FindUnresolvedInAll(ps), s)
    ensures ResolveAll(ps, s.locations).Success?
    ensures forall i :: 0 <= i < |ps| ==>
              var q := ResolveAll(ps, s.locations).value[i]; Runnable(q, s.files) && NoWriter(q)
    decreases ps, 0
  {
    if ps != [] {
      var front, last := ps[..|ps| - 1], ps[|ps| - 1];
      ResolvedForestCanBeRun(s, front);
      ResolvedCanBeRun(s, last);
    }
  }

  /** A stage as the planner makes it. */
  predicate Executable(stage: Plan) {
    && stage.op.ShuffleWriter? && |stage.children| == 1
    && Writable(stage.op.shuffleOutputPartitioning) && NoWriter(stage.children[0])
  }

  /** The resolved input of a stage whose inputs have run. */
  lemma InputCanBeRun(
    engine: Engine, cat: Catalog, jobId: string, done: seq<Plan>, s: Progress, stage: Plan)
    requires Consistent(engine, cat, jobId, done, s)
    requires Executable(stage) && WellFormed(stage) && HasNoReader(stage) && NoRepartition(stage)
    requires NamesAll(cat, FindUnresolvedShuffles(stage), done)
    ensures ResolveChild(stage.children[0], s.locations).Success?
    ensures var q := ResolveChild(stage.children[0], s.locations).value; Runnable(q, s.files) && NoWriter(q)
    ensures Resolve(stage, s.locations) ==
            Success(Plan(stage.op, [ResolveChild(stage.children[0], s.locations).value]))
  {
    var child := stage.children[0];
    FindUnresolvedSingle(child);
    assert stage.children == [child];
    LocatedFilesPresent(engine, cat, jobId, done, s, FindUnresolvedShuffles(stage));
    ResolvedCanBeRun(s, child);
    ResolvedOne(stage, s.locations);
  }

  /** Each task may write its partition of a result of the resolved input. */
  lemma InputMayBeWritten(engine: Engine, cat: Catalog, s: Progress, stage: Plan, written: Table)
    requires Executable(stage) && ResolveChild(stage.children[0], s.locations).Success?
    requires Resolve(stage, s.locations) ==
             Success(Plan(stage.op, [ResolveChild(stage.children[0], s.locations).value]))
    requires |written| == PartitionCount(cat, stage.children[0])
    requires TaskWise(engine, Context(map[], s.files), ResolveChild(stage.children[0], s.locations).value, written)
    ensures MayWrite(engine, cat, s, stage, written)
  {
    var ctx, n := Context(map[], s.files), |written|;
    var child, resolved := ResolveChild(stage.children[0], s.locations).value, Resolve(stage, s.locations).value;
    var some :| Denotes(engine, ctx, child, some) && |some| == n;
    DenotesUnary(engine, ctx, resolved, some, some);
    forall t | 0 <= t < n ensures TaskResult(engine, ctx, resolved, n, t, written[t]) {
      var out := ResultOfTask(engine, ctx, child, written, t);
      DenotesUnary(engine, ctx, resolved, out, out);
    }
  }

  /** A stage whose inputs have run may produce some table. */
  lemma StageMayWrite(engine: Engine, cat: Catalog, jobId: string, done: seq<Plan>, s: Progress, stage: Plan)
    returns (written: Table)
    requires Total(engine, cat) && Consistent(engine, cat, jobId, done, s)
    requires Executable(stage) && WellFormed(stage) && HasNoReader(stage) && NoRepartition(stage)
    requires NamesAll(cat, FindUnresolvedShuffles(stage), done)
    ensures MayWrite(engine, cat, s, stage, written)
    ensures Denotes(engine, Context(map[], s.files), Resolve(stage, s.locations).value, written)
  {
    var ctx := Context(map[], s.files);
    InputCanBeRun(engine, cat, jobId, done, s, stage);
    var resolved := ResolveChild(stage.children[0], s.locations).value;
    written := HasResult(engine, cat, resolved, s.files);
    ResolvedChildKeepsCount(cat, stage.children[0], s.locations);
    ResultIsTaskWise(engine, ctx, resolved, written);
    InputMayBeWritten(engine, cat, s, stage, written);
    DenotesUnary(engine, ctx, Resolve(stage, s.locations).value, written, written);
  }

  lemma ResolvedChildKeepsCount(cat: Catalog, p: Plan, locations: map<nat, Locations>)
    requires WellFormed(p) && ResolveChild(p, locations).Success?
    ensures PartitionCount(cat, ResolveChild(p, locations).value) == PartitionCount(cat, p)
  {
    if !p.op.UnresolvedShuffle? {
      ResolveKeepsShape(cat, p, locations);
    }
  }

  lemma ResolvedOne(p: Plan, locations: map<nat, Locations>)
    requires !p.op.UnresolvedShuffle? && !p.op.ShuffleReader? && |p.children| == 1
    requires ResolveChild(p.children[0], locations).Success?
    ensures Resolve(p, locations) == Success(Plan(p.op, [ResolveChild(p.children[0], locations).value]))
  {
    assert p.children[..0] == [] && p.children[..1] == p.children;
    ResolveNext(p.children, 0, locations, []);
    assert [] + [ResolveChild(p.children[0], locations).value] == [ResolveChild(p.children[0], locations).value];
  }

  // ---------- The stages of a query can be run ----------

  predicate AllExecutable(stages: seq<Plan>) {
    forall i :: 0 <= i < |stages| ==> Executable(stages[i])
  }

  lemma {:induction false} CutIsExecutable(cat: Catalog, jobId: string, p: Plan, next: nat)
    requires IsQuery(p) && CutPlan(cat, jobId, p, next).Cut?
    ensures NoWriter(CutPlan(cat, jobId, p, next).plan) && AllExecutable(CutPlan(cat, jobId, p, next).stages)
    decreases p, 1
  {
    if p.children != [] {
      CutForestIsExecutable(cat, jobId, p.children, next);
    }
  }

  lemma {:induction false} CutForestIsExecutable(cat: Catalog, jobId: string, ps: seq<Plan>, next: nat)
    requires (forall i :: 0 <= i < |ps| ==> IsQuery(ps[i])) && CutChildren(cat, jobId, ps, next).CutAll?
    ensures AllExecutable(CutChildren(cat, jobId, ps, next).stages)
    ensures forall i :: 0 <= i < |ps| ==> NoWriter(CutChildren(cat, jobId, ps, next).plans[i])
    decreases ps, 0
  {
    if ps != [] {
      var front, last := ps[..|ps| - 1], ps[|ps| - 1];
      CutForestIsExecutable(cat, jobId, front, next);
      CutIsExecutable(cat, jobId, last, CutChildren(cat, jobId, front, next).nextStageId);
    }
  }

  lemma {:induction false} SingleMeansNoRepartition(p: Plan)
    requires SinglePartitioning(p)
    ensures NoRepartition(p)
  {
    forall i | 0 <= i < |p.children| ensures NoRepartition(p.children[i]) {
      SingleMeansNoRepartition(p.children[i]);
    }
  }

  /** What the planner makes of a query. */
  ghost predicate Prepared(cat: Catalog, jobId: string, stages: seq<Plan>, from: nat) {
    && StagesLinked(cat, jobId, stages, from) && AllExecutable(stages)
    && forall i :: 0 <= i < |stages| ==> NoRepartition(stages[i])
  }

  lemma QueryIsPrepared(cat: Catalog, jobId: string, p: Plan, next: nat)
    requires WellFormed(p) && IsQuery(p) && HasNoWindowAgg(p)
    ensures StagesOf(cat, jobId, p, next).Success? && StagesOf(cat, jobId, p, next).value != []
    ensures Prepared(cat, jobId, StagesOf(cat, jobId, p, next).value, next)
  {
    StagesAreWellStructured(cat, jobId, p, next);
    QueryStagesAreLinked(cat, jobId, p, next);
    CutIsExecutable(cat, jobId, p, next);
    var stages := StagesOf(cat, jobId, p, next).value;
    forall i | 0 <= i < |stages| ensures NoRepartition(stages[i]) {
      SingleMeansNoRepartition(stages[i]);
    }
  }

  lemma NotRunYet(jobId: string, stages: seq<Plan>, from: nat, n: nat)
    requires Numbered(jobId, stages, from, from + |stages|) && n < |stages|
    ensures stages[n] in stages && stages[n] !in stages[..n] && stages[..n + 1] == stages[..n] + [stages[n]]
  {}

  lemma ExecutesSnoc(
    engine: Engine, cat: Catalog, jobId: string, stages: seq<Plan>, before: seq<StageRun>, run: StageRun)
    requires Executes(engine, cat, jobId, stages, before)
    requires run.stage in stages && run.stage !in StagesRun(before)
    requires StageExecutes(engine, cat, jobId, After(before), run)
    ensures Executes(engine, cat, jobId, stages, before + [run])
    ensures StagesRun(before + [run]) == StagesRun(before) + [run.stage]
    ensures After(before + [run]) == WithRun(After(before), run)
  {
    assert (before + [run])[..|before|] == before;
  }

  /** The next stage in the list can write any table that its tasks may write. */
  lemma NextCanRun(
    engine: Engine, cat: Catalog, jobId: string, stages: seq<Plan>, from: nat, n: nat, before: seq<StageRun>,
    written: Table)
    returns (run: StageRun)
    requires Numbered(jobId, stages, from, from + |stages|) && n < |stages|
    requires Executes(engine, cat, jobId, stages, before) && StagesRun(before) == stages[..n]
    requires MayWrite(engine, cat, After(before), stages[n], written)
    ensures run.stage == stages[n] && run.written == written
    ensures Executes(engine, cat, jobId, stages, before + [run]) && StagesRun(before + [run]) == stages[..n + 1]
    ensures After(before + [run]) == WithRun(After(before), run)
  {
    run := StageCanRun(engine, cat, jobId, After(before), stages[n], written);
    NotRunYet(jobId, stages, from, n);
    ExecutesSnoc(engine, cat, jobId, stages, before, run);
  }

  lemma NextMayWrite(
    engine: Engine, cat: Catalog, jobId: string, stages: seq<Plan>, from: nat, n: nat, before: seq<StageRun>)
    returns (written: Table)
    requires Total(engine, cat) && Prepared(cat, jobId, stages, from) && n < |stages|
    requires Executes(engine, cat, jobId, stages, before) && StagesRun(before) == stages[..n]
    ensures MayWrite(engine, cat, After(before), stages[n], written)
    ensures Denotes(engine, Context(After(before).outputs, map[]), stages[n], written)
  {
    var s, done := After(before), stages[..n];
    ExecutionIsConsistent(engine, cat, jobId, stages, from, before);
    written := StageMayWrite(engine, cat, jobId, done, s, stages[n]);
    ResolvedMeansTheSame(engine, cat, stages[n], done, s.locations, s.files, s.outputs, written);
  }

  lemma {:induction false} OutputsHaveRun(runs: seq<StageRun>, id: nat)
    requires AllWriters(runs) && id in After(runs).outputs
    ensures HasRun(StagesRun(runs), id)
  {
    var before, run := runs[..|runs| - 1], runs[|runs| - 1];
    HasRunGrows(StagesRun(before), run.stage);
    if id != run.stage.op.stageId {
      OutputsHaveRun(before, id);
    }
  }

  lemma NextIsNew(jobId: string, stages: seq<Plan>, from: nat, n: nat, before: seq<StageRun>)
    requires Numbered(jobId, stages, from, from + |stages|) && n < |stages|
    requires AllWriters(before) && StagesRun(before) == stages[..n]
    ensures stages[n].op.ShuffleWriter? && stages[n].op.stageId !in After(before).outputs
  {
    if stages[n].op.stageId in After(before).outputs {
      OutputsHaveRun(before, stages[n].op.stageId);
    }
  }

  /** The first n stages have run, each as a whole. */
  ghost predicate HaveRun(
    engine: Engine, cat: Catalog, jobId: string, stages: seq<Plan>, n: nat, runs: seq<StageRun>)
  {
    && n <= |stages| && Executes(engine, cat, jobId, stages, runs) && StagesRun(runs) == stages[..n]
    && Runs(engine, stages[..n], After(runs).outputs)
  }

  lemma NothingHasRun(engine: Engine, cat: Catalog, jobId: string, stages: seq<Plan>)
    ensures HaveRun(engine, cat, jobId, stages, 0, [])
  {}

  /** The next stage can run as a whole: all its tasks see the same result. */
  lemma OneMoreCanRun(
    engine: Engine, cat: Catalog, jobId: string, stages: seq<Plan>, from: nat, n: nat, before: seq<StageRun>)
    returns (runs: seq<StageRun>)
    requires Total(engine, cat) && Prepared(cat, jobId, stages, from)
    requires HaveRun(engine, cat, jobId, stages, n, before) && n < |stages|
    ensures HaveRun(engine, cat, jobId, stages, n + 1, runs)
  {
    var written := NextMayWrite(engine, cat, jobId, stages, from, n, before);
    NextIsNew(jobId, stages, from, n, before);
    var outputs := After(before).outputs;
    var input := InputOfUnary(engine, Context(outputs, map[]), stages[n], written);
    var _ := AddStage(engine, stages[..n], outputs, stages[n], written);
    var run := NextCanRun(engine, cat, jobId, stages, from, n, before, written);
    runs := before + [run];
    assert stages[..n + 1] == stages[..n] + [stages[n]];
  }

  /** All stages can be run, in list order. */
  lemma StagesCanRun(engine: Engine, cat: Catalog, jobId: string, stages: seq<Plan>, from: nat)
    returns (runs: seq<StageRun>)
    requires Total(engine, cat) && Prepared(cat, jobId, stages, from)
    ensures HaveRun(engine, cat, jobId, stages, |stages|, runs)
  {
    runs := [];
    NothingHasRun(engine, cat, jobId, stages);
    for n := 0 to |stages|
      invariant HaveRun(engine, cat, jobId, stages, n, runs)
    {
      runs := OneMoreCanRun(engine, cat, jobId, stages, from, n, runs);
    }
  }

  lemma AllRunFinishes(engine: Engine, cat: Catalog, jobId: string, stages: seq<Plan>, runs: seq<StageRun>)
    requires Executes(engine, cat, jobId, stages, runs) && StagesRun(runs) == stages && stages != []
    ensures Finishes(engine, cat, jobId, stages, runs, |stages| - 1)
    ensures |runs| == |stages| && forall k :: 0 <= k < |stages| ==> runs[k].stage == stages[k]
  {}

  lemma StagesCanFinish(engine: Engine, cat: Catalog, jobId: string, stages: seq<Plan>, from: nat)
    returns (runs: seq<StageRun>, i: nat)
    requires Total(engine, cat) && Prepared(cat, jobId, stages, from) && stages != []
    ensures Finishes(engine, cat, jobId, stages, runs, i)
    ensures EndsWith(engine, stages, After(runs).outputs, runs[i].written)
  {
    runs := StagesCanRun(engine, cat, jobId, stages, from);
    i := |stages| - 1;
    assert stages[..|stages|] == stages;
    AllRunFinishes(engine, cat, jobId, stages, runs);
    LastOutput(engine, cat, jobId, stages, from, runs, i);
  }

  /**
   Every query that can be planned can be executed to its last stage, with a result of the query, if its
   operators have results.
   */
  lemma JobCanFinish(engine: Engine, cat: Catalog, jobId: string, p: Plan, next: nat)
    returns (runs: seq<StageRun>, i: nat)
    requires WellFormed(p) && IsQuery(p) && HasNoWindowAgg(p) && Total(engine, cat)
    ensures StagesOf(cat, jobId, p, next).Success?
    ensures Finishes(engine, cat, jobId, StagesOf(cat, jobId, p, next).value, runs, i)
    ensures Denotes(engine, NOTHING_RUN, Stripped(p), runs[i].written)
  {
    QueryIsPrepared(cat, jobId, p, next);
    runs, i := StagesCanFinish(engine, cat, jobId, StagesOf(cat, jobId, p, next).value, next);
    StagesComputeTheQuery(engine, cat, jobId, p, next, runs[i].written);
  }
}
