/**
 A query from end to end: the planner cuts it into stages; each stage, once its inputs are there, is
 resolved against the locations reported so far, runs one task per input partition, and writes its
 files. Every task evaluates the plan of the stage on its own and keeps one partition. If the
 partitions so put together are a result of each stage, the last stage writes a result of the query.
 */
module QueryExecution {
  import opened Wrappers
  import opened Plans
  import opened Planner
  import opened StageStructure
  import opened Semantics
  import opened StageCorrectness
  import opened TaskResults
  import opened Shuffle
  import opened Exchange
  import opened ShuffleReading
  import opened Resolution

  /** One stage: its tasks, what their inputs held, what they wrote and where. */
  datatype StageRun = StageRun(stage: Plan, tasks: seq<Task>, written: Table, locations: Locations, files: Files)

  /** Where a job stands: the locations by stage, the files on disk, and what they hold. */
  datatype Progress = Progress(locations: map<nat, Locations>, files: Files, outputs: map<nat, StageOutput>)

  const NOTHING_DONE: Progress := Progress(map[], map[], map[])

  function WithRun(s: Progress, run: StageRun): Progress
    requires run.stage.op.ShuffleWriter?
  {
    var ShuffleWriter(_, id, partitioning) := run.stage.op;
    Progress(s.locations[id := run.locations], s.files + run.files,
             s.outputs[id := StageOutput(partitioning, run.written)])
  }

  predicate AllWriters(runs: seq<StageRun>) {
    forall i :: 0 <= i < |runs| ==> runs[i].stage.op.ShuffleWriter?
  }

  function After(runs: seq<StageRun>): Progress
    requires AllWriters(runs)
  {
    if runs == [] then NOTHING_DONE else WithRun(After(runs[..|runs| - 1]), runs[|runs| - 1])
  }

  function StagesRun(runs: seq<StageRun>): (done: seq<Plan>)
    ensures |done| == |runs| && forall i :: 0 <= i < |runs| ==> done[i] == runs[i].stage
  {
    if runs == [] then [] else StagesRun(runs[..|runs| - 1]) + [runs[|runs| - 1].stage]
  }

  /**
   The stage runs against the given locations and files: one task per partition, each writing its
   partition of some result of the resolved plan, the way `RunTasks` does.
   */
  ghost predicate StageExecutes(engine: Engine, cat: Catalog, jobId: string, s: Progress, run: StageRun) {
    var stage := run.stage;
    && stage.op.ShuffleWriter? && |stage.children| == 1
    && Resolve(stage, s.locations).Success?
    && TaskWise(engine, Context(map[], s.files), Resolve(stage, s.locations).value, run.written)
    && |run.written| == PartitionCount(cat, stage.children[0])
    && TasksOf(run.tasks, run.written)
    && StageWritten(engine, stage.op.shuffleOutputPartitioning, run.written, run.locations, run.files)
    && forall path :: path in run.files ==> FileOfStage(jobId, stage.op.stageId, path)
  }

  /**
   The stages run in any order, each at most once. A stage can be resolved only if the locations of
   all its inputs are known, so it runs after the stages it reads.
   */
  ghost predicate Executes(engine: Engine, cat: Catalog, jobId: string, stages: seq<Plan>, runs: seq<StageRun>) {
    && AllWriters(runs)
    && (runs == [] ||
        var before, run := runs[..|runs| - 1], runs[|runs| - 1];
        && Executes(engine, cat, jobId, stages, before)
        && run.stage in stages && run.stage !in StagesRun(before)
        && StageExecutes(engine, cat, jobId, After(before), run))
  }

  // ---------- Files of different stages ----------

  ghost predicate FileOfStage(jobId: string, stageId: nat, path: string) {
    exists workDir: string, n: nat, name: string ::
      '/' !in name && path == FileIn(StageDir(workDir, jobId, stageId), n, name)
  }

  lemma FileOfOneStage(jobId: string, s: nat, t: nat, path: string)
    requires FileOfStage(jobId, s, path) && FileOfStage(jobId, t, path)
    ensures s == t
  {
    var w: string, n: nat, name: string :| '/' !in name && path == FileIn(StageDir(w, jobId, s), n, name);
    var w': string, n': nat, name': string :| '/' !in name' && path == FileIn(StageDir(w', jobId, t), n', name');
    FileInInjective(StageDir(w, jobId, s), n, name, StageDir(w', jobId, t), n', name');
    StageDirInjective(w, jobId, s, w', jobId, t);
  }

  lemma TaskFileOfStage(
    jobId: string, stageId: nat, partitioning: Option<Partitioning>, tasks: seq<Task>, path: string)
    requires WrittenByOne(jobId, stageId, partitioning, tasks, path)
    ensures FileOfStage(jobId, stageId, path)
  {
    var i, q: nat :| 0 <= i < |tasks| &&
      path == TaskPath(partitioning, StageDir(tasks[i].workDir, jobId, stageId), q, tasks[i].inputPartition);
    if partitioning.None? {
      assert '/' !in "data.arrow";
      IsFileOfStage(tasks[i].workDir, jobId, stageId, tasks[i].inputPartition, "data.arrow");
    } else {
      IsFileOfStage(tasks[i].workDir, jobId, stageId, q, HashFileName(tasks[i].inputPartition));
    }
  }

  lemma IsFileOfStage(workDir: string, jobId: string, stageId: nat, n: nat, name: string)
    requires '/' !in name
    ensures FileOfStage(jobId, stageId, FileIn(StageDir(workDir, jobId, stageId), n, name))
  {}

  /** The file belongs to one of the stages. */
  ghost predicate FileOfStages(jobId: string, done: seq<Plan>, path: string) {
    exists i :: 0 <= i < |done| && done[i].op.ShuffleWriter? && FileOfStage(jobId, done[i].op.stageId, path)
  }

  // ---------- What has been recorded ----------

  predicate SameFiles(small: Files, large: Files) {
    forall path :: path in small ==> path in large && large[path] == small[path]
  }

  lemma StageWrittenExtends(
    engine: Engine, partitioning: Option<Partitioning>, written: Table, locations: Locations,
    small: Files, large: Files)
    requires SameFiles(small, large)
    requires StageWritten(engine, partitioning, written, locations, small)
    ensures StageWritten(engine, partitioning, written, locations, large)
  {
    forall q: nat ensures
      HoldsContributions(engine, partitioning, written, Upto(|written|), q, LocationsAt(locations, q), large)
    {
      assert HoldsContributions(engine, partitioning, written, Upto(|written|), q, LocationsAt(locations, q), small);
    }
  }

  /** The output of a stage is on disk, where the locations say, with the partitions its plan has. */
  ghost predicate Recorded(
    engine: Engine, cat: Catalog, stage: Plan,
    locations: map<nat, Locations>, files: Files, outputs: map<nat, StageOutput>)
  {
    && stage.op.ShuffleWriter? && |stage.children| == 1
    && stage.op.stageId in locations && stage.op.stageId in outputs
    && var output := outputs[stage.op.stageId];
       && output.partitioning == stage.op.shuffleOutputPartitioning
       && |output.written| == PartitionCount(cat, stage.children[0])
       && StageWritten(engine, output.partitioning, output.written, locations[stage.op.stageId], files)
  }

  ghost predicate AllRecorded(
    engine: Engine, cat: Catalog, stages: seq<Plan>,
    locations: map<nat, Locations>, files: Files, outputs: map<nat, StageOutput>)
  {
    forall i :: 0 <= i < |stages| ==> Recorded(engine, cat, stages[i], locations, files, outputs)
  }

  // ---------- Resolved plans mean the same ----------

  lemma {:induction false} ResolvedMeansTheSame(
    engine: Engine, cat: Catalog, p: Plan, stages: seq<Plan>,
    locations: map<nat, Locations>, files: Files, outputs: map<nat, StageOutput>, out: Table)
    requires HasNoReader(p) && AllRecorded(engine, cat, stages, locations, files, outputs)
    requires NamesAll(cat, FindUnresolvedShuffles(p), stages)
    requires Resolve(p, locations).Success?
    requires Denotes(engine, Context(map[], files), Resolve(p, locations).value, out)
    ensures Denotes(engine, Context(outputs, map[]), p, out)
    decreases p, 2
  {
    var children := ResolveAll(p.children, locations).value;
    var ins :| DenotesAll(engine, Context(map[], files), children, ins) && Applies(engine, p.op, ins, out);
    ResolvedForestMeansTheSame(engine, cat, p.children, stages, locations, files, outputs, ins);
  }

  lemma {:induction false} ResolvedChildMeansTheSame(
    engine: Engine, cat: Catalog, p: Plan, stages: seq<Plan>,
    locations: map<nat, Locations>, files: Files, outputs: map<nat, StageOutput>, out: Table)
    requires HasNoReader(p) && AllRecorded(engine, cat, stages, locations, files, outputs)
    requires NamesAll(cat, FindUnresolvedShuffles(p), stages)
    requires ResolveChild(p, locations).Success?
    requires Denotes(engine, Context(map[], files), ResolveChild(p, locations).value, out)
    ensures Denotes(engine, Context(outputs, map[]), p, out)
    decreases p, 3
  {
    if p.op.UnresolvedShuffle? {
      assert p.op in FindUnresolvedShuffles(p);
      ReferenceMeansTheSame(engine, cat, p, stages, locations, files, outputs, out);
    } else {
      ResolvedMeansTheSame(engine, cat, p, stages, locations, files, outputs, out);
    }
  }

  lemma {:induction false} ResolvedForestMeansTheSame(
    engine: Engine, cat: Catalog, ps: seq<Plan>, stages: seq<Plan>,
    locations: map<nat, Locations>, files: Files, outputs: map<nat, StageOutput>, outs: seq<Table>)
    requires forall i :: 0 <= i < |ps| ==> HasNoReader(ps[i])
    requires AllRecorded(engine, cat, stages, locations, files, outputs)
    requires NamesAll(cat, FindUnresolvedInAll(ps), stages)
    requires ResolveAll(ps, locations).Success?
    requires DenotesAll(engine, Context(map[], files), ResolveAll(ps, locations).value, outs)
    ensures DenotesAll(engine, Context(outputs, map[]), ps, outs)
    decreases ps, 0
  {
    if ps != [] {
      var front, last := ps[..|ps| - 1], ps[|ps| - 1];
      var n := |front|;
      NamesAllSplit(cat, FindUnresolvedInAll(front), FindUnresolvedShuffles(last), stages);
      ResolvedLast(ps, locations);
      DenotesAllSnoc(engine, Context(map[], files), ResolveAll(front, locations).value,
                     ResolveChild(last, locations).value, outs);
      ResolvedForestMeansTheSame(engine, cat, front, stages, locations, files, outputs, outs[..n]);
      ResolvedChildMeansTheSame(engine, cat, last, stages, locations, files, outputs, outs[n]);
      DenotesAllSnoc(engine, Context(outputs, map[]), front, last, outs);
    }
  }

  lemma ResolvedLast(ps: seq<Plan>, locations: map<nat, Locations>)
    requires ps != [] && ResolveAll(ps, locations).Success?
    ensures var front, last := ps[..|ps| - 1], ps[|ps| - 1];
            && ps == front + [last]
            && ResolveAll(front, locations).Success? && ResolveChild(last, locations).Success?
            && ResolveAll(ps, locations).value ==
               ResolveAll(front, locations).value + [ResolveChild(last, locations).value]
  {}

  lemma NamesAllSplit(cat: Catalog, us: seq<Operator>, vs: seq<Operator>, stages: seq<Plan>)
    requires NamesAll(cat, us + vs, stages)
    ensures NamesAll(cat, us, stages) && NamesAll(cat, vs, stages)
  {
    assert forall u :: u in us ==> u in us + vs;
    assert forall u :: u in vs ==> u in us + vs;
  }

  /** A reader made for a reference reads what the reference stands for. */
  lemma ReferenceMeansTheSame(
    engine: Engine, cat: Catalog, ref: Plan, stages: seq<Plan>,
    locations: map<nat, Locations>, files: Files, outputs: map<nat, StageOutput>, out: Table)
    requires AllRecorded(engine, cat, stages, locations, files, outputs)
    requires ref.op.UnresolvedShuffle? && NamesSome(cat, ref.op, stages) && ref.op.stageId in locations
    requires Denotes(engine, Context(map[], files), ReaderFor(ref.op, locations[ref.op.stageId]), out)
    ensures Denotes(engine, Context(outputs, map[]), ref, out)
  {
    var u := ref.op;
    var i :| 0 <= i < |stages| && Names(cat, u, stages[i]);
    assert Recorded(engine, cat, stages[i], locations, files, outputs);
    var output := outputs[u.stageId];
    WrittenIsReadable(engine, output.partitioning, output.written, locations[u.stageId], files, out);
  }

  // ---------- One stage more ----------

  predicate HasRun(done: seq<Plan>, id: nat) {
    exists i :: 0 <= i < |done| && done[i].op.ShuffleWriter? && done[i].op.stageId == id
  }

  /** After some stages of the job: they are recorded, on disk, and a run of their tasks; nothing else is. */
  ghost predicate Consistent(engine: Engine, cat: Catalog, jobId: string, done: seq<Plan>, s: Progress) {
    && AllRecorded(engine, cat, done, s.locations, s.files, s.outputs)
    && TaskRuns(engine, done, s.outputs)
    && (forall path :: path in s.files ==> FileOfStages(jobId, done, path))
    && (forall id :: id in s.outputs || id in s.locations ==> HasRun(done, id))
  }

  /** The new stage's files are new. */
  lemma NewFiles(jobId: string, done: seq<Plan>, stage: Plan, files: Files, newFiles: Files)
    requires stage.op.ShuffleWriter? && !HasRun(done, stage.op.stageId)
    requires forall path :: path in files ==> FileOfStages(jobId, done, path)
    requires forall path :: path in newFiles ==> FileOfStage(jobId, stage.op.stageId, path)
    ensures files.Keys !! newFiles.Keys
    ensures forall path :: path in files + newFiles ==> FileOfStages(jobId, done + [stage], path)
  {
    var all := done + [stage];
    forall path | path in newFiles ensures path !in files && FileOfStages(jobId, all, path) {
      assert all[|done|] == stage;
      if path in files {
        var i :| 0 <= i < |done| && done[i].op.ShuffleWriter? && FileOfStage(jobId, done[i].op.stageId, path);
        FileOfOneStage(jobId, done[i].op.stageId, stage.op.stageId, path);
      }
    }
    forall path | path in files ensures FileOfStages(jobId, all, path) {
      var i :| 0 <= i < |done| && done[i].op.ShuffleWriter? && FileOfStage(jobId, done[i].op.stageId, path);
      assert all[i] == done[i];
    }
  }

  lemma HasRunGrows(done: seq<Plan>, stage: Plan)
    requires stage.op.ShuffleWriter?
    ensures forall id :: HasRun(done + [stage], id) <==> HasRun(done, id) || id == stage.op.stageId
  {
    var all := done + [stage];
    assert all[|done|] == stage;
    forall id: nat | HasRun(done, id) ensures HasRun(all, id) {
      var i :| 0 <= i < |done| && done[i].op.ShuffleWriter? && done[i].op.stageId == id;
      assert all[i] == done[i];
    }
  }

  lemma OneMoreRecorded(engine: Engine, cat: Catalog, done: seq<Plan>, s: Progress, run: StageRun)
    requires AllRecorded(engine, cat, done, s.locations, s.files, s.outputs)
    requires run.stage.op.ShuffleWriter? && |run.stage.children| == 1 && !HasRun(done, run.stage.op.stageId)
    requires |run.written| == PartitionCount(cat, run.stage.children[0])
    requires StageWritten(engine, run.stage.op.shuffleOutputPartitioning, run.written, run.locations, run.files)
    requires s.files.Keys !! run.files.Keys
    ensures var s' := WithRun(s, run);
            AllRecorded(engine, cat, done + [run.stage], s'.locations, s'.files, s'.outputs)
  {
    var stage, s' := run.stage, WithRun(s, run);
    StageWrittenExtends(engine, stage.op.shuffleOutputPartitioning, run.written, run.locations, run.files, s'.files);
    assert Recorded(engine, cat, stage, s'.locations, s'.files, s'.outputs);
    forall i | 0 <= i < |done| ensures Recorded(engine, cat, done[i], s'.locations, s'.files, s'.outputs) {
      assert Recorded(engine, cat, done[i], s.locations, s.files, s.outputs);
      var output := s.outputs[done[i].op.stageId];
      StageWrittenExtends(
        engine, output.partitioning, output.written, s.locations[done[i].op.stageId], s.files, s'.files);
    }
  }

  lemma ResolvedTasksMeanTheSame(
    engine: Engine, cat: Catalog, stage: Plan, done: seq<Plan>, s: Progress, written: Table)
    requires HasNoReader(stage) && AllRecorded(engine, cat, done, s.locations, s.files, s.outputs)
    requires NamesAll(cat, FindUnresolvedShuffles(stage), done)
    requires Resolve(stage, s.locations).Success?
    requires TaskWise(engine, Context(map[], s.files), Resolve(stage, s.locations).value, written)
    ensures TaskWise(engine, Context(s.outputs, map[]), stage, written)
  {
    var from, to, n := Context(map[], s.files), Context(s.outputs, map[]), |written|;
    var resolved := Resolve(stage, s.locations).value;
    var some :| Denotes(engine, from, resolved, some) && |some| == n;
    ResolvedMeansTheSame(engine, cat, stage, done, s.locations, s.files, s.outputs, some);
    forall t | 0 <= t < n ensures TaskResult(engine, to, stage, n, t, written[t]) {
      var out := ResultOfTask(engine, from, resolved, written, t);
      ResolvedMeansTheSame(engine, cat, stage, done, s.locations, s.files, s.outputs, out);
    }
  }

  lemma OneStageMore(engine: Engine, cat: Catalog, jobId: string, done: seq<Plan>, s: Progress, run: StageRun)
    requires Consistent(engine, cat, jobId, done, s)
    requires StageExecutes(engine, cat, jobId, s, run)
    requires HasNoReader(run.stage) && !HasRun(done, run.stage.op.stageId)
    requires NamesAll(cat, FindUnresolvedShuffles(run.stage), done)
    ensures Consistent(engine, cat, jobId, done + [run.stage], WithRun(s, run))
  {
    var stage := run.stage;
    NewFiles(jobId, done, stage, s.files, run.files);
    OneMoreRecorded(engine, cat, done, s, run);
    HasRunGrows(done, stage);
    ResolvedTasksMeanTheSame(engine, cat, stage, done, s, run.written);
    assert stage.op.stageId !in s.outputs;
    AddTaskRun(engine, done, s.outputs, stage, run.written);
  }

  // ---------- The stages of a query ----------

  /** What is known of the stages of a query: numbered one after the other, referring to earlier ones only. */
  ghost predicate StagesLinked(cat: Catalog, jobId: string, stages: seq<Plan>, from: nat) {
    && Numbered(jobId, stages, from, from + |stages|)
    && (forall i :: 0 <= i < |stages| ==> HasNoReader(stages[i]) && WellFormed(stages[i]))
    && ReadsBackwards(cat, stages)
  }

  predicate AllIn(done: seq<Plan>, stages: seq<Plan>) {
    forall i :: 0 <= i < |done| ==> done[i] in stages
  }

  /** Stages are told apart by their numbers. */
  lemma SameNumberSameStage(jobId: string, stages: seq<Plan>, from: nat, s: Plan, t: Plan)
    requires Numbered(jobId, stages, from, from + |stages|) && s in stages && t in stages
    requires s.op.stageId == t.op.stageId
    ensures s == t
  {
    var i :| 0 <= i < |stages| && stages[i] == s;
    var j :| 0 <= j < |stages| && stages[j] == t;
    assert i == j;
  }

  /** Among the stages of a query, a number has run if and only if its stage has. */
  lemma HasRunIff(jobId: string, stages: seq<Plan>, from: nat, done: seq<Plan>, stage: Plan)
    requires Numbered(jobId, stages, from, from + |stages|) && stage in stages && AllIn(done, stages)
    ensures stage.op.ShuffleWriter? && (HasRun(done, stage.op.stageId) <==> stage in done)
  {
    if HasRun(done, stage.op.stageId) {
      var i :| 0 <= i < |done| && done[i].op.ShuffleWriter? && done[i].op.stageId == stage.op.stageId;
      SameNumberSameStage(jobId, stages, from, done[i], stage);
    }
  }

  /** A reference that can be resolved names a stage that has run. */
  lemma ResolvedNamesRun(
    cat: Catalog, jobId: string, stages: seq<Plan>, from: nat, done: seq<Plan>, s: Progress, stage: Plan)
    requires StagesLinked(cat, jobId, stages, from) && stage in stages && AllIn(done, stages)
    requires forall id :: id in s.locations ==> HasRun(done, id)
    requires Resolve(stage, s.locations).Success?
    ensures NamesAll(cat, FindUnresolvedShuffles(stage), done)
  {
    var k :| 0 <= k < |stages| && stages[k] == stage;
    ResolveSucceedsIff(stage, s.locations);
    forall u | u in FindUnresolvedShuffles(stage) ensures NamesSome(cat, u, done) {
      assert NamesSome(cat, u, stages[..k]);
      var i :| 0 <= i < k && Names(cat, u, stages[..k][i]);
      HasRunIff(jobId, stages, from, done, stages[i]);
      var j :| 0 <= j < |done| && done[j] == stages[i];
    }
  }

  lemma {:induction false} RunsAreStages(
    engine: Engine, cat: Catalog, jobId: string, stages: seq<Plan>, runs: seq<StageRun>)
    requires Executes(engine, cat, jobId, stages, runs)
    ensures AllIn(StagesRun(runs), stages)
  {
    if runs != [] {
      RunsAreStages(engine, cat, jobId, stages, runs[..|runs| - 1]);
    }
  }

  lemma ConsistentNext(
    engine: Engine, cat: Catalog, jobId: string, stages: seq<Plan>, from: nat, done: seq<Plan>, s: Progress,
    run: StageRun)
    requires StagesLinked(cat, jobId, stages, from) && AllIn(done, stages)
    requires Consistent(engine, cat, jobId, done, s) && StageExecutes(engine, cat, jobId, s, run)
    requires run.stage in stages && run.stage !in done
    ensures Consistent(engine, cat, jobId, done + [run.stage], WithRun(s, run))
  {
    HasRunIff(jobId, stages, from, done, run.stage);
    ResolvedNamesRun(cat, jobId, stages, from, done, s, run.stage);
    OneStageMore(engine, cat, jobId, done, s, run);
  }

  /** In whatever order the stages of a query run, the state stays consistent. */
  lemma {:induction false} ExecutionIsConsistent(
    engine: Engine, cat: Catalog, jobId: string, stages: seq<Plan>, from: nat, runs: seq<StageRun>)
    requires StagesLinked(cat, jobId, stages, from) && Executes(engine, cat, jobId, stages, runs)
    ensures Consistent(engine, cat, jobId, StagesRun(runs), After(runs))
  {
    if runs != [] {
      var before, run := runs[..|runs| - 1], runs[|runs| - 1];
      ExecutionIsConsistent(engine, cat, jobId, stages, from, before);
      RunsAreStages(engine, cat, jobId, stages, before);
      ConsistentNext(engine, cat, jobId, stages, from, StagesRun(before), After(before), run);
    }
  }

  lemma QueryStagesAreLinked(cat: Catalog, jobId: string, p: Plan, next: nat)
    requires WellFormed(p) && IsQuery(p) && HasNoWindowAgg(p)
    ensures StagesOf(cat, jobId, p, next).Success?
    ensures StagesLinked(cat, jobId, StagesOf(cat, jobId, p, next).value, next)
  {
    StagesAreWellStructured(cat, jobId, p, next);
  }

  // ---------- All stages run before the last one ----------

  /** What a stage that has run reads has run. */
  ghost predicate Closed(done: seq<Plan>) {
    forall i, u :: 0 <= i < |done| && u in FindUnresolvedShuffles(done[i]) ==> HasRun(done, u.stageId)
  }

  lemma ClosedNext(done: seq<Plan>, s: Progress, stage: Plan)
    requires Closed(done) && (forall id :: id in s.locations ==> HasRun(done, id))
    requires stage.op.ShuffleWriter? && WellFormed(stage) && Resolve(stage, s.locations).Success?
    ensures Closed(done + [stage])
  {
    HasRunGrows(done, stage);
    ResolveSucceedsIff(stage, s.locations);
  }

  lemma {:induction false} ExecutionIsClosed(
    engine: Engine, cat: Catalog, jobId: string, stages: seq<Plan>, from: nat, runs: seq<StageRun>)
    requires StagesLinked(cat, jobId, stages, from) && Executes(engine, cat, jobId, stages, runs)
    ensures Closed(StagesRun(runs))
  {
    if runs != [] {
      var before, run := runs[..|runs| - 1], runs[|runs| - 1];
      ExecutionIsClosed(engine, cat, jobId, stages, from, before);
      ExecutionIsConsistent(engine, cat, jobId, stages, from, before);
      ClosedNext(StagesRun(before), After(before), run.stage);
    }
  }

  /** A stage is read by a later one, unless it is the last. */
  lemma ReaderOf(cat: Catalog, jobId: string, stages: seq<Plan>, from: nat, i: nat) returns (j: nat, u: Operator)
    requires StagesLinked(cat, jobId, stages, from) && i < |stages| && Readers(stages, from + i + 1) == 1
    ensures i < j < |stages| && u in FindUnresolvedShuffles(stages[j]) && u.stageId == from + i + 1
  {
    u := ReadSome(FindUnresolvedInAll(stages), from + i + 1);
    FindUnresolvedIn(stages, u);
    j :| 0 <= j < |stages| && u in FindUnresolvedShuffles(stages[j]);
    assert NamesSome(cat, u, stages[..j]);
    var k :| 0 <= k < j && Names(cat, u, stages[..j][k]);
    assert stages[..j][k] == stages[k];
  }

  lemma {:induction false} ReadSome(us: seq<Operator>, n: nat) returns (u: Operator)
    requires (forall u :: u in us ==> u.UnresolvedShuffle?) && Reads(us, n) > 0
    ensures u in us && u.stageId == n
  {
    u := us[|us| - 1];
    if u.stageId != n {
      u := ReadSome(us[..|us| - 1], n);
    }
  }

  /** When the last stage has run, all have. */
  lemma {:induction false} AllHaveRun(
    cat: Catalog, jobId: string, stages: seq<Plan>, from: nat, done: seq<Plan>, i: nat)
    requires StagesLinked(cat, jobId, stages, from) && AllIn(done, stages) && Closed(done)
    requires AllButLastRead(stages, from)
    requires i < |stages| && stages[|stages| - 1] in done
    ensures stages[i] in done
    decreases |stages| - i
  {
    if i < |stages| - 1 {
      var j, u := ReaderOf(cat, jobId, stages, from, i);
      AllHaveRun(cat, jobId, stages, from, done, j);
      HasRunIff(jobId, stages, from, done, stages[i]);
    }
  }

  lemma StagesHaveRun(
    engine: Engine, cat: Catalog, jobId: string, stages: seq<Plan>, from: nat, done: seq<Plan>, s: Progress)
    requires StagesLinked(cat, jobId, stages, from) && AllIn(done, stages) && Closed(done)
    requires AllButLastRead(stages, from)
    requires stages != [] && stages[|stages| - 1] in done && Consistent(engine, cat, jobId, done, s)
    ensures TaskRuns(engine, stages, s.outputs)
    ensures AllRecorded(engine, cat, stages, s.locations, s.files, s.outputs)
  {
    forall k | 0 <= k < |stages|
      ensures StageTaskRuns(engine, stages[k], s.outputs)
      ensures Recorded(engine, cat, stages[k], s.locations, s.files, s.outputs)
    {
      AllHaveRun(cat, jobId, stages, from, done, k);
      var m :| 0 <= m < |done| && done[m] == stages[k];
    }
  }

  // ---------- The theorems ----------

  /** A stage whose inputs have run can always be resolved. */
  lemma NextStageResolves(engine: Engine, cat: Catalog, jobId: string, done: seq<Plan>, s: Progress, stage: Plan)
    requires Consistent(engine, cat, jobId, done, s)
    requires stage.op.ShuffleWriter? && WellFormed(stage)
    requires NamesAll(cat, FindUnresolvedShuffles(stage), done)
    ensures Resolve(stage, s.locations).Success?
  {
    ResolveSucceedsIff(stage, s.locations);
    forall u | u in FindUnresolvedShuffles(stage) ensures u.stageId in s.locations {
      var i :| 0 <= i < |done| && Names(cat, u, done[i]);
      assert Recorded(engine, cat, done[i], s.locations, s.files, s.outputs);
    }
  }

  predicate RunOnce(runs: seq<StageRun>)
    requires AllWriters(runs)
  {
    forall i, j :: 0 <= i < j < |runs| ==> runs[i].stage.op.stageId != runs[j].stage.op.stageId
  }

  lemma {:induction false} ExecutionRunsOnce(
    engine: Engine, cat: Catalog, jobId: string, stages: seq<Plan>, from: nat, runs: seq<StageRun>)
    requires Numbered(jobId, stages, from, from + |stages|) && Executes(engine, cat, jobId, stages, runs)
    ensures RunOnce(runs)
  {
    if runs != [] {
      var n := |runs| - 1;
      ExecutionRunsOnce(engine, cat, jobId, stages, from, runs[..n]);
      RunsAreStages(engine, cat, jobId, stages, runs[..n]);
      HasRunIff(jobId, stages, from, StagesRun(runs[..n]), runs[n].stage);
      RunOnceSnoc(runs);
    }
  }

  lemma RunOnceSnoc(runs: seq<StageRun>)
    requires runs != [] && AllWriters(runs) && RunOnce(runs[..|runs| - 1])
    requires !HasRun(StagesRun(runs[..|runs| - 1]), runs[|runs| - 1].stage.op.stageId)
    ensures RunOnce(runs)
  {
    var n := |runs| - 1;
    forall i | 0 <= i < n ensures runs[i].stage.op.stageId != runs[n].stage.op.stageId {
      assert StagesRun(runs[..n])[i] == runs[i].stage;
    }
  }

  /** What a stage wrote stays its output. */
  lemma {:induction false} OutputStays(runs: seq<StageRun>, i: nat)
    requires AllWriters(runs) && RunOnce(runs) && i < |runs|
    ensures var id := runs[i].stage.op.stageId;
            id in After(runs).outputs && After(runs).outputs[id].written == runs[i].written
  {
    if i < |runs| - 1 {
      OutputStays(runs[..|runs| - 1], i);
    }
  }

  /** The stages are executed, the last of them as number i. */
  ghost predicate Finishes(
    engine: Engine, cat: Catalog, jobId: string, stages: seq<Plan>, runs: seq<StageRun>, i: nat)
  {
    && Executes(engine, cat, jobId, stages, runs)
    && i < |runs| && stages != [] && runs[i].stage == stages[|stages| - 1]
  }

  lemma LastStageEnds(
    engine: Engine, cat: Catalog, jobId: string, stages: seq<Plan>, from: nat, runs: seq<StageRun>, i: nat)
    requires StagesLinked(cat, jobId, stages, from) && Finishes(engine, cat, jobId, stages, runs, i)
    requires AllButLastRead(stages, from)
    ensures TasksEndWith(engine, stages, After(runs).outputs, runs[i].written)
    ensures var s := After(runs); AllRecorded(engine, cat, stages, s.locations, s.files, s.outputs)
  {
    var done, s := StagesRun(runs), After(runs);
    assert done[i] in done;
    ExecutionIsConsistent(engine, cat, jobId, stages, from, runs);
    ExecutionIsClosed(engine, cat, jobId, stages, from, runs);
    RunsAreStages(engine, cat, jobId, stages, runs);
    StagesHaveRun(engine, cat, jobId, stages, from, done, s);
    LastOutput(engine, cat, jobId, stages, from, runs, i);
  }

  lemma LastOutput(
    engine: Engine, cat: Catalog, jobId: string, stages: seq<Plan>, from: nat, runs: seq<StageRun>, i: nat)
    requires Numbered(jobId, stages, from, from + |stages|) && Executes(engine, cat, jobId, stages, runs)
    requires i < |runs|
    ensures var id := runs[i].stage.op.stageId;
            id in After(runs).outputs && After(runs).outputs[id].written == runs[i].written
  {
    ExecutionRunsOnce(engine, cat, jobId, stages, from, runs);
    OutputStays(runs, i);
  }

  ghost predicate AllCoherent(engine: Engine, cat: Catalog, stages: seq<Plan>) {
    forall k :: 0 <= k < |stages| ==> Coherent(engine, cat, stages[k])
  }

  /** Coherent stages have run as wholes. */
  lemma CoherentStagesRun(engine: Engine, cat: Catalog, stages: seq<Plan>, s: Progress)
    requires AllRecorded(engine, cat, stages, s.locations, s.files, s.outputs)
    requires TaskRuns(engine, stages, s.outputs) && AllCoherent(engine, cat, stages)
    ensures Runs(engine, stages, s.outputs)
  {
    forall i | 0 <= i < |stages| ensures StageRuns(engine, stages[i], s.outputs) {
      assert Recorded(engine, cat, stages[i], s.locations, s.files, s.outputs);
      assert StageTaskRuns(engine, stages[i], s.outputs);
      TaskWiseIsResult(engine, Context(s.outputs, map[]), stages[i], s.outputs[stages[i].op.stageId].written);
    }
  }

  lemma CoherentStagesEnd(
    engine: Engine, cat: Catalog, jobId: string, stages: seq<Plan>, from: nat, runs: seq<StageRun>, i: nat)
    requires StagesLinked(cat, jobId, stages, from) && Finishes(engine, cat, jobId, stages, runs, i)
    requires AllButLastRead(stages, from)
    requires AllCoherent(engine, cat, stages)
    ensures EndsWith(engine, stages, After(runs).outputs, runs[i].written)
  {
    LastStageEnds(engine, cat, jobId, stages, from, runs, i);
    CoherentStagesRun(engine, cat, stages, After(runs));
  }

  /**
   Whatever the executors, the order in which stages and tasks run and the order in which every task
   fetches its files: when the last stage of a query has run, it has written a table that the query may
   produce, provided that the partitions of every stage fit together.
   */
  lemma ClusterComputesTheQuery(
    engine: Engine, cat: Catalog, jobId: string, p: Plan, next: nat, runs: seq<StageRun>, i: nat)
    requires WellFormed(p) && IsQuery(p) && HasNoWindowAgg(p)
    requires StagesOf(cat, jobId, p, next).Success? ==>
               && Finishes(engine, cat, jobId, StagesOf(cat, jobId, p, next).value, runs, i)
               && AllCoherent(engine, cat, StagesOf(cat, jobId, p, next).value)
    ensures StagesOf(cat, jobId, p, next).Success?
    ensures i < |runs| && Denotes(engine, NOTHING_RUN, Stripped(p), runs[i].written)
  {
    StagesAreWellStructured(cat, jobId, p, next);
    QueryStagesAreLinked(cat, jobId, p, next);
    CoherentStagesEnd(engine, cat, jobId, StagesOf(cat, jobId, p, next).value, next, runs, i);
    StagesComputeTheQuery(engine, cat, jobId, p, next, runs[i].written);
  }
}
