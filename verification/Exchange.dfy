/**
 A whole shuffle: all map tasks of a stage write, the scheduler collects the locations they report,
 and readers fetch them. Every row arrives exactly once, in the partition it belongs to.
 */
module Exchange {
  import opened Wrappers
  import opened Plans
  import opened Semantics
  import opened Shuffle

  /** One map task: the input partition it runs, and where it runs. */
  datatype Task = Task(inputPartition: nat, executorId: string, workDir: string, stream: Stream)

  /** Locations by output partition, as the scheduler collects them for a stage. */
  type Locations = map<nat, seq<PartitionLocation>>

  /** What a resolved reader gets for a partition: nothing if no task wrote to it. */
  function LocationsAt(locations: Locations, q: nat): seq<PartitionLocation> {
    if q in locations then locations[q] else []
  }

  predicate Writable(partitioning: Option<Partitioning>) {
    partitioning.None? || partitioning.value.Hash?
  }

  /** The rows that input partition t of a stage contributes to output partition q. */
  function Contribution(
    engine: Engine, partitioning: Option<Partitioning>, q: nat, t: nat, rows: seq<Row>): seq<Row>
    requires Writable(partitioning)
  {
    match partitioning
    case None => if t == q then rows else []
    case Some(p) => RowsTo(engine, p.exprs, p.count, q, rows)
  }

  /** Whether input partition t of a stage leaves a file for output partition q. */
  predicate Delivers(engine: Engine, partitioning: Option<Partitioning>, q: nat, t: nat, rows: seq<Row>)
    requires Writable(partitioning)
  {
    match partitioning
    case None => t == q
    case Some(p) => q < p.count && RowsTo(engine, p.exprs, p.count, q, rows) != []
  }

  predicate HasLocation(ls: seq<PartitionLocation>, t: nat) {
    exists i :: 0 <= i < |ls| && ls[i].mapPartitionId == t
  }

  /** The locations of partition q hold what the input partitions in `done` contribute to it. */
  ghost predicate HoldsContributions(
    engine: Engine, partitioning: Option<Partitioning>, written: Table, done: set<nat>, q: nat,
    ls: seq<PartitionLocation>, files: Files)
    requires Writable(partitioning)
  {
    && (forall i, j :: 0 <= i < j < |ls| ==> ls[i].mapPartitionId != ls[j].mapPartitionId)
    && (forall l :: l in ls ==>
          && l.partitionId == q
          && l.mapPartitionId in done && l.mapPartitionId < |written|
          && l.path in files
          && files[l.path] == Contribution(engine, partitioning, q, l.mapPartitionId, written[l.mapPartitionId])
          && l.numRows == |files[l.path]|)
    && (forall t :: t in done && 0 <= t < |written| ==>
          (HasLocation(ls, t) <==> Delivers(engine, partitioning, q, t, written[t])))
  }

  function Upto(n: nat): (s: set<nat>)
    ensures forall t: nat :: t in s <==> t < n
  {
    if n == 0 then {} else Upto(n - 1) + {n - 1}
  }

  /** The files of a finished stage and where they are. */
  ghost predicate StageWritten(
    engine: Engine, partitioning: Option<Partitioning>, written: Table, locations: Locations, files: Files)
  {
    && Writable(partitioning)
    && forall q: nat ::
         HoldsContributions(engine, partitioning, written, Upto(|written|), q, LocationsAt(locations, q), files)
  }

  // ---------- Collecting locations ----------

  /** The report of one task, in the scheduler's terms. */
  function ToLocation(task: Task, w: ShuffleWritePartition): PartitionLocation {
    PartitionLocation(task.inputPartition, w.partitionId, task.executorId, w.path, w.numRows, w.numBatches)
  }

  function AddPartition(locations: Locations, l: PartitionLocation): Locations {
    locations[l.partitionId := LocationsAt(locations, l.partitionId) + [l]]
  }

  function AddAll(locations: Locations, task: Task, entries: seq<ShuffleWritePartition>): Locations {
    if entries == [] then locations
    else AddPartition(AddAll(locations, task, entries[..|entries| - 1]), ToLocation(task, entries[|entries| - 1]))
  }

  predicate DistinctPartitions(entries: seq<ShuffleWritePartition>) {
    forall i, j :: 0 <= i < j < |entries| ==> entries[i].partitionId != entries[j].partitionId
  }

  /** Each reported entry adds one location to its partition, the other partitions stay as they are. */
  lemma {:induction false} AddAllAt(locations: Locations, task: Task, entries: seq<ShuffleWritePartition>, q: nat)
    requires DistinctPartitions(entries)
    ensures !HasEntry(entries, q) ==> LocationsAt(AddAll(locations, task, entries), q) == LocationsAt(locations, q)
    ensures forall k :: 0 <= k < |entries| && entries[k].partitionId == q ==>
              LocationsAt(AddAll(locations, task, entries), q) ==
              LocationsAt(locations, q) +
              [PartitionLocation(task.inputPartition, q, task.executorId, entries[k].path, entries[k].numRows,
                                 entries[k].numBatches)]
  {
    if entries != [] {
      var init, last := entries[..|entries| - 1], entries[|entries| - 1];
      AddAllAt(locations, task, init, q);
      if last.partitionId == q {
        assert !HasEntry(init, q);
        assert entries[|entries| - 1].partitionId == q;
      } else {
        assert forall k :: 0 <= k < |init| ==> init[k] == entries[k];
        assert HasEntry(init, q) ==> HasEntry(entries, q);
      }
    }
  }

  // ---------- Running the tasks ----------

  /** One task per input partition, in whatever order they finish; written collects their inputs. */
  ghost predicate TasksOf(tasks: seq<Task>, written: Table) {
    && |tasks| == |written|
    && (forall i, j :: 0 <= i < j < |tasks| ==> tasks[i].inputPartition != tasks[j].inputPartition)
    && (forall i :: 0 <= i < |tasks| ==>
          tasks[i].inputPartition < |written| && written[tasks[i].inputPartition] == Rows(tasks[i].stream.batches))
    && (forall t :: 0 <= t < |written| ==> t in Done(tasks))
  }

  function Done(tasks: seq<Task>): set<nat> {
    set i | 0 <= i < |tasks| :: tasks[i].inputPartition
  }

  function TaskPath(partitioning: Option<Partitioning>, dir: string, q: nat, input: nat): string {
    if partitioning.None? then PlainPath(dir, input) else HashPath(dir, q, input)
  }

  /** A file belongs to one of the tasks that have run. */
  ghost predicate WrittenByOne(
    jobId: string, stageId: nat, partitioning: Option<Partitioning>, tasks: seq<Task>, path: string)
  {
    exists i, q: nat :: 0 <= i < |tasks| &&
      path == TaskPath(partitioning, StageDir(tasks[i].workDir, jobId, stageId), q, tasks[i].inputPartition)
  }

  /** Different pairs of input and output partition never share a file. */
  lemma TaskPathInjective(
    partitioning: Option<Partitioning>, dir: string, q: nat, input: nat, dir': string, q': nat, input': nat)
    requires TaskPath(partitioning, dir, q, input) == TaskPath(partitioning, dir', q', input')
    ensures input == input' && (partitioning.Some? ==> q == q')
  {
    if partitioning.None? {
      PlainPathInjective(dir, input, dir', input');
    } else {
      HashPathInjective(dir, q, input, dir', q', input');
    }
  }

  lemma TaskFilesAreNew(
    engine: Engine, jobId: string, stageId: nat, partitioning: Option<Partitioning>, tasks: seq<Task>, task: Task,
    entries: seq<ShuffleWritePartition>, files: Files, taskFiles: Files)
    requires Writable(partitioning)
    requires task.inputPartition !in Done(tasks)
    requires forall path :: path in files ==> WrittenByOne(jobId, stageId, partitioning, tasks, path)
    requires TaskWritten(engine, StageDir(task.workDir, jobId, stageId), partitioning, task.inputPartition,
                         task.stream.batches, entries, taskFiles)
    ensures files.Keys !! taskFiles.Keys
    ensures forall path :: path in taskFiles ==> WrittenByOne(jobId, stageId, partitioning, tasks + [task], path)
  {
    var dir, all := StageDir(task.workDir, jobId, stageId), tasks + [task];
    forall path | path in taskFiles
      ensures path !in files && WrittenByOne(jobId, stageId, partitioning, all, path)
    {
      var q: nat := 0;
      if partitioning.Some? {
        var w :| w in entries && w.path == path;
        q := w.partitionId;
      }
      assert path == TaskPath(partitioning, dir, q, task.inputPartition);
      assert all[|tasks|] == task;
      if path in files {
        var i, q': nat :| 0 <= i < |tasks| &&
          path == TaskPath(partitioning, StageDir(tasks[i].workDir, jobId, stageId), q', tasks[i].inputPartition);
        TaskPathInjective(partitioning, dir, q, task.inputPartition,
                          StageDir(tasks[i].workDir, jobId, stageId), q', tasks[i].inputPartition);
        assert false;
      }
    }
  }

  // ---------- One more task ----------

  /** What a task reports for partition q, if anything, is exactly its contribution. */
  lemma EntryIsContribution(
    engine: Engine, dir: string, partitioning: Option<Partitioning>, task: Task,
    entries: seq<ShuffleWritePartition>, files: Files, q: nat)
    requires Writable(partitioning)
    requires TaskWritten(engine, dir, partitioning, task.inputPartition, task.stream.batches, entries, files)
    ensures DistinctPartitions(entries)
    ensures HasEntry(entries, q) <==>
              Delivers(engine, partitioning, q, task.inputPartition, Rows(task.stream.batches))
    ensures forall k :: 0 <= k < |entries| && entries[k].partitionId == q ==>
              && entries[k].path in files
              && files[entries[k].path] ==
                 Contribution(engine, partitioning, q, task.inputPartition, Rows(task.stream.batches))
              && entries[k].numRows == |files[entries[k].path]|
  {
    if partitioning.None? {
      assert entries[0].partitionId == task.inputPartition;
    } else if HasEntry(entries, q) {
      var i :| 0 <= i < |entries| && entries[i].partitionId == q;
      assert entries[i] in entries;
    }
  }

  /** The locations of partition q after one more task. */
  lemma HoldsOneMore(
    engine: Engine, partitioning: Option<Partitioning>, written: Table, done: set<nat>, q: nat,
    ls: seq<PartitionLocation>, files: Files, task: Task, entry: Option<ShuffleWritePartition>,
    ls': seq<PartitionLocation>, files': Files)
    requires Writable(partitioning)
    requires HoldsContributions(engine, partitioning, written, done, q, ls, files)
    requires task.inputPartition !in done && task.inputPartition < |written|
    requires forall path :: path in files ==> path in files' && files'[path] == files[path]
    requires Delivers(engine, partitioning, q, task.inputPartition, written[task.inputPartition]) <==> entry.Some?
    requires ls' == if entry.None? then ls else ls + [ToLocation(task, entry.value)]
    requires entry.Some? ==>
               && entry.value.partitionId == q && entry.value.path in files'
               && files'[entry.value.path] ==
                  Contribution(engine, partitioning, q, task.inputPartition, written[task.inputPartition])
               && entry.value.numRows == |files'[entry.value.path]|
    ensures HoldsContributions(engine, partitioning, written, done + {task.inputPartition}, q, ls', files')
  {
    var input := task.inputPartition;
    assert !HasLocation(ls, input);
    forall t | t in done + {input} && 0 <= t < |written|
      ensures HasLocation(ls', t) <==> Delivers(engine, partitioning, q, t, written[t])
    {
      if entry.Some? {
        assert ls'[|ls|].mapPartitionId == input;
        assert forall i :: 0 <= i < |ls| ==> ls'[i] == ls[i];
        if t != input && HasLocation(ls', t) {
          var i :| 0 <= i < |ls'| && ls'[i].mapPartitionId == t;
          assert ls[i].mapPartitionId == t;
        }
        if t != input && HasLocation(ls, t) {
          var i :| 0 <= i < |ls| && ls[i].mapPartitionId == t;
          assert ls'[i].mapPartitionId == t;
        }
      }
    }
  }

  /** The scheduler's view after one more task has reported. */
  lemma StageOneMore(
    engine: Engine, jobId: string, stageId: nat, partitioning: Option<Partitioning>, written: Table, done: set<nat>,
    locations: Locations, files: Files, task: Task, entries: seq<ShuffleWritePartition>, taskFiles: Files, q: nat)
    requires Writable(partitioning)
    requires HoldsContributions(engine, partitioning, written, done, q, LocationsAt(locations, q), files)
    requires task.inputPartition !in done && task.inputPartition < |written|
    requires written[task.inputPartition] == Rows(task.stream.batches)
    requires TaskWritten(engine, StageDir(task.workDir, jobId, stageId), partitioning, task.inputPartition,
                         task.stream.batches, entries, taskFiles)
    requires files.Keys !! taskFiles.Keys
    ensures HoldsContributions(engine, partitioning, written, done + {task.inputPartition}, q,
                               LocationsAt(AddAll(locations, task, entries), q), files + taskFiles)
  {
    EntryIsContribution(engine, StageDir(task.workDir, jobId, stageId), partitioning, task, entries, taskFiles, q);
    AddAllAt(locations, task, entries, q);
    var ls' := LocationsAt(AddAll(locations, task, entries), q);
    var entry := None;
    if HasEntry(entries, q) {
      var k :| 0 <= k < |entries| && entries[k].partitionId == q;
      entry := Some(entries[k]);
    }
    HoldsOneMore(engine, partitioning, written, done, q, LocationsAt(locations, q), files, task, entry,
                 ls', files + taskFiles);
  }

  lemma DoneOneMore(tasks: seq<Task>, i: nat)
    requires i < |tasks|
    ensures Done(tasks[..i + 1]) == Done(tasks[..i]) + {tasks[i].inputPartition}
  {
    assert forall j :: 0 <= j < i ==> tasks[..i + 1][j] == tasks[..i][j];
    assert tasks[..i + 1][i] == tasks[i];
    forall t | t in Done(tasks[..i]) + {tasks[i].inputPartition} ensures t in Done(tasks[..i + 1]) {
      if t in Done(tasks[..i]) {
        var j :| 0 <= j < i && tasks[..i][j].inputPartition == t;
        assert tasks[..i + 1][j].inputPartition == t;
      }
    }
  }

  lemma MoreTasks(
    jobId: string, stageId: nat, partitioning: Option<Partitioning>, tasks: seq<Task>, i: nat, files: Files)
    requires i < |tasks|
    requires forall path :: path in files ==> WrittenByOne(jobId, stageId, partitioning, tasks[..i], path)
    ensures forall path :: path in files ==> WrittenByOne(jobId, stageId, partitioning, tasks[..i + 1], path)
  {
    forall path | path in files ensures WrittenByOne(jobId, stageId, partitioning, tasks[..i + 1], path) {
      var j, q: nat :| 0 <= j < |tasks[..i]| &&
        path == TaskPath(
                  partitioning, StageDir(tasks[..i][j].workDir, jobId, stageId), q, tasks[..i][j].inputPartition);
      assert tasks[..i + 1][j] == tasks[..i][j];
    }
  }

  /** What the tasks wrote is on disk and collected, and no other file of theirs is there. */
  ghost predicate TasksWritten(
    engine: Engine, jobId: string, stageId: nat, partitioning: Option<Partitioning>, written: Table,
    tasks: seq<Task>, locations: Locations, files: Files)
    requires Writable(partitioning)
  {
    && (forall path :: path in files ==> WrittenByOne(jobId, stageId, partitioning, tasks, path))
    && (forall q: nat ::
          HoldsContributions(engine, partitioning, written, Done(tasks), q, LocationsAt(locations, q), files))
  }

  lemma TaskIsNew(tasks: seq<Task>, written: Table, i: nat)
    requires TasksOf(tasks, written) && i < |tasks|
    ensures tasks[i].inputPartition !in Done(tasks[..i]) && tasks[i].inputPartition < |written|
    ensures written[tasks[i].inputPartition] == Rows(tasks[i].stream.batches)
  {
    assert forall j :: 0 <= j < i ==> tasks[..i][j] == tasks[j];
  }

  lemma NothingWritten(
    engine: Engine, jobId: string, stageId: nat, partitioning: Option<Partitioning>, written: Table)
    requires Writable(partitioning)
    ensures TasksWritten(engine, jobId, stageId, partitioning, written, [], map[], map[])
  {
    assert Done([]) == {};
  }

  lemma OneTaskMore(
    engine: Engine, jobId: string, stageId: nat, partitioning: Option<Partitioning>, written: Table,
    tasks: seq<Task>, i: nat, locations: Locations, files: Files,
    entries: seq<ShuffleWritePartition>, taskFiles: Files)
    requires Writable(partitioning) && TasksOf(tasks, written) && i < |tasks|
    requires TasksWritten(engine, jobId, stageId, partitioning, written, tasks[..i], locations, files)
    requires TaskWritten(engine, StageDir(tasks[i].workDir, jobId, stageId), partitioning, tasks[i].inputPartition,
                         tasks[i].stream.batches, entries, taskFiles)
    ensures TasksWritten(engine, jobId, stageId, partitioning, written, tasks[..i + 1],
                         AddAll(locations, tasks[i], entries), files + taskFiles)
  {
    var task := tasks[i];
    TaskIsNew(tasks, written, i);
    TaskFilesAreNew(engine, jobId, stageId, partitioning, tasks[..i], task, entries, files, taskFiles);
    assert tasks[..i] + [task] == tasks[..i + 1];
    DoneOneMore(tasks, i);
    StageOneMoreAll(engine, jobId, stageId, partitioning, written, Done(tasks[..i]), locations, files,
                    task, entries, taskFiles);
    MoreTasks(jobId, stageId, partitioning, tasks, i, files);
  }

  lemma StageOneMoreAll(
    engine: Engine, jobId: string, stageId: nat, partitioning: Option<Partitioning>, written: Table, done: set<nat>,
    locations: Locations, files: Files, task: Task, entries: seq<ShuffleWritePartition>, taskFiles: Files)
    requires Writable(partitioning)
    requires forall q: nat ::
               HoldsContributions(engine, partitioning, written, done, q, LocationsAt(locations, q), files)
    requires task.inputPartition !in done && task.inputPartition < |written|
    requires written[task.inputPartition] == Rows(task.stream.batches)
    requires TaskWritten(engine, StageDir(task.workDir, jobId, stageId), partitioning, task.inputPartition,
                         task.stream.batches, entries, taskFiles)
    requires files.Keys !! taskFiles.Keys
    ensures forall q: nat ::
              HoldsContributions(engine, partitioning, written, done + {task.inputPartition}, q,
                                 LocationsAt(AddAll(locations, task, entries), q), files + taskFiles)
  {
    forall q: nat
      ensures HoldsContributions(engine, partitioning, written, done + {task.inputPartition}, q,
                                 LocationsAt(AddAll(locations, task, entries), q), files + taskFiles)
    {
      StageOneMore(engine, jobId, stageId, partitioning, written, done, locations, files,
                   task, entries, taskFiles, q);
    }
  }

  lemma AllTasksWritten(
    engine: Engine, jobId: string, stageId: nat, partitioning: Option<Partitioning>, written: Table,
    tasks: seq<Task>, locations: Locations, files: Files)
    requires Writable(partitioning) && TasksOf(tasks, written)
    requires TasksWritten(engine, jobId, stageId, partitioning, written, tasks, locations, files)
    ensures StageWritten(engine, partitioning, written, locations, files)
  {
    assert Done(tasks) == Upto(|written|);
  }

  // ---------- Whose report a location is ----------

  /** How many batches of a task went to the file for partition q: all, or those with a row for it. */
  function BatchesFor(engine: Engine, partitioning: Option<Partitioning>, q: nat, batches: seq<seq<Row>>): nat
    requires Writable(partitioning)
  {
    match partitioning
    case None => |batches|
    case Some(p) => |BatchesWith(engine, p.exprs, p.count, q, batches)|
  }

  /** The location names the task's input and executor, its file for q and what went there. */
  predicate ReportOf(
    engine: Engine, jobId: string, stageId: nat, partitioning: Option<Partitioning>, task: Task, q: nat,
    l: PartitionLocation)
    requires Writable(partitioning)
  {
    && l.mapPartitionId == task.inputPartition && l.partitionId == q && l.executorId == task.executorId
    && l.path == TaskPath(partitioning, StageDir(task.workDir, jobId, stageId), q, task.inputPartition)
    && l.numRows == |Contribution(engine, partitioning, q, task.inputPartition, Rows(task.stream.batches))|
    && l.numBatches == BatchesFor(engine, partitioning, q, task.stream.batches)
  }

  ghost predicate ReportOfSome(
    engine: Engine, jobId: string, stageId: nat, partitioning: Option<Partitioning>, tasks: seq<Task>, q: nat,
    l: PartitionLocation)
    requires Writable(partitioning)
  {
    exists i :: 0 <= i < |tasks| && ReportOf(engine, jobId, stageId, partitioning, tasks[i], q, l)
  }

  /** Every location was reported by one of the tasks. */
  ghost predicate AllReports(
    engine: Engine, jobId: string, stageId: nat, partitioning: Option<Partitioning>, tasks: seq<Task>,
    locations: Locations)
    requires Writable(partitioning)
  {
    forall q: nat, l :: l in LocationsAt(locations, q) ==>
      ReportOfSome(engine, jobId, stageId, partitioning, tasks, q, l)
  }

  lemma EntryIsReport(
    engine: Engine, jobId: string, stageId: nat, partitioning: Option<Partitioning>, task: Task,
    entries: seq<ShuffleWritePartition>, files: Files, k: nat)
    requires Writable(partitioning) && k < |entries|
    requires TaskWritten(engine, StageDir(task.workDir, jobId, stageId), partitioning, task.inputPartition,
                         task.stream.batches, entries, files)
    ensures ReportOf(engine, jobId, stageId, partitioning, task, entries[k].partitionId, ToLocation(task, entries[k]))
  {
    if partitioning.Some? {
      assert entries[k] in entries;
      BatchesToCounts(engine, partitioning.value.exprs, partitioning.value.count, entries[k].partitionId,
                      task.stream.batches);
    }
  }

  lemma OneReportMore(
    engine: Engine, jobId: string, stageId: nat, partitioning: Option<Partitioning>, tasks: seq<Task>, i: nat,
    locations: Locations, entries: seq<ShuffleWritePartition>, files: Files)
    requires Writable(partitioning) && i < |tasks|
    requires AllReports(engine, jobId, stageId, partitioning, tasks[..i], locations)
    requires TaskWritten(engine, StageDir(tasks[i].workDir, jobId, stageId), partitioning, tasks[i].inputPartition,
                         tasks[i].stream.batches, entries, files)
    ensures AllReports(engine, jobId, stageId, partitioning, tasks[..i + 1], AddAll(locations, tasks[i], entries))
  {
    var task, done := tasks[i], tasks[..i + 1];
    forall q: nat, l | l in LocationsAt(AddAll(locations, task, entries), q)
      ensures ReportOfSome(engine, jobId, stageId, partitioning, done, q, l)
    {
      var k := NewOrOld(engine, jobId, stageId, partitioning, task, locations, entries, files, q, l);
      if k < |entries| {
        EntryIsReport(engine, jobId, stageId, partitioning, task, entries, files, k);
        assert done[i] == task;
      } else {
        assert ReportOfSome(engine, jobId, stageId, partitioning, tasks[..i], q, l);
        var m :| 0 <= m < i && ReportOf(engine, jobId, stageId, partitioning, tasks[..i][m], q, l);
        assert done[m] == tasks[..i][m];
      }
    }
  }

  /** A location was there before, or is the report of one of the new entries. */
  lemma NewOrOld(
    engine: Engine, jobId: string, stageId: nat, partitioning: Option<Partitioning>, task: Task,
    locations: Locations, entries: seq<ShuffleWritePartition>, files: Files, q: nat, l: PartitionLocation)
    returns (k: nat)
    requires Writable(partitioning) && l in LocationsAt(AddAll(locations, task, entries), q)
    requires TaskWritten(engine, StageDir(task.workDir, jobId, stageId), partitioning, task.inputPartition,
                         task.stream.batches, entries, files)
    ensures k < |entries| ==> entries[k].partitionId == q && l == ToLocation(task, entries[k])
    ensures k >= |entries| ==> l in LocationsAt(locations, q)
  {
    EntryIsContribution(engine, StageDir(task.workDir, jobId, stageId), partitioning, task, entries, files, q);
    AddAllAt(locations, task, entries, q);
    k := |entries|;
    if l !in LocationsAt(locations, q) {
      k :| 0 <= k < |entries| && entries[k].partitionId == q;
    }
  }

  /** Runs all map tasks of a stage, in the order in which they finish, and collects what they report. */
  method RunTasks(
    engine: Engine, jobId: string, stageId: nat, partitioning: Option<Partitioning>, tasks: seq<Task>,
    ghost written: Table)
    returns (r: Result<Locations, string>, files: Files)
    requires forall i :: 0 <= i < |tasks| ==> CanSplit(partitioning, tasks[i].stream)
    requires TasksOf(tasks, written)
    ensures r.Success? <==>
              (tasks == [] || Writable(partitioning)) && forall i :: 0 <= i < |tasks| ==> tasks[i].stream.error.None?
    ensures r.Success? && Writable(partitioning) ==> StageWritten(engine, partitioning, written, r.value, files)
    ensures r.Success? ==> forall path :: path in files ==> WrittenByOne(jobId, stageId, partitioning, tasks, path)
    ensures r.Success? && Writable(partitioning) ==>
              AllReports(engine, jobId, stageId, partitioning, tasks, r.value)
  {
    var locations: Locations := map[];
    files := map[];
    for i := 0 to |tasks|
      invariant i > 0 ==> Writable(partitioning)
      invariant !Writable(partitioning) ==> files == map[]
      invariant forall j :: 0 <= j < i ==> tasks[j].stream.error.None?
      invariant Writable(partitioning) ==>
                  TasksWritten(engine, jobId, stageId, partitioning, written, tasks[..i], locations, files)
      invariant Writable(partitioning) ==>
                  AllReports(engine, jobId, stageId, partitioning, tasks[..i], locations)
    {
      var task := tasks[i];
      var report, taskFiles := ExecuteShuffleWrite(
        engine, task.workDir, jobId, stageId, partitioning, task.inputPartition, task.stream);
      if report.Failure? {
        return Failure(report.error), files;
      }
      OneTaskMore(engine, jobId, stageId, partitioning, written, tasks, i, locations, files, report.value, taskFiles);
      OneReportMore(engine, jobId, stageId, partitioning, tasks, i, locations, report.value, taskFiles);
      files := files + taskFiles;
      locations := CollectLocations(locations, task, report.value);
    }
    assert tasks[..|tasks|] == tasks;
    if Writable(partitioning) {
      AllTasksWritten(engine, jobId, stageId, partitioning, written, tasks, locations, files);
    }
    r := Success(locations);
  }

  lemma TaskCanFollow(
    engine: Engine, jobId: string, stageId: nat, partitioning: Option<Partitioning>, written: Table,
    tasks: seq<Task>, i: nat, locations: Locations, files: Files)
    returns (locations': Locations, files': Files)
    requires Writable(partitioning) && TasksOf(tasks, written) && i < |tasks|
    requires TasksWritten(engine, jobId, stageId, partitioning, written, tasks[..i], locations, files)
    ensures TasksWritten(engine, jobId, stageId, partitioning, written, tasks[..i + 1], locations', files')
  {
    var task := tasks[i];
    var entries, taskFiles := TaskCanBeWritten(
      engine, StageDir(task.workDir, jobId, stageId), partitioning, task.inputPartition, task.stream.batches);
    OneTaskMore(engine, jobId, stageId, partitioning, written, tasks, i, locations, files, entries, taskFiles);
    locations', files' := AddAll(locations, task, entries), files + taskFiles;
  }

  /** There are files and locations for every list of tasks. */
  lemma TasksCanBeWritten(
    engine: Engine, jobId: string, stageId: nat, partitioning: Option<Partitioning>, written: Table,
    tasks: seq<Task>)
    returns (locations: Locations, files: Files)
    requires Writable(partitioning) && TasksOf(tasks, written)
    ensures TasksWritten(engine, jobId, stageId, partitioning, written, tasks, locations, files)
  {
    locations, files := map[], map[];
    NothingWritten(engine, jobId, stageId, partitioning, written);
    assert tasks[..0] == [];
    for i := 0 to |tasks|
      invariant TasksWritten(engine, jobId, stageId, partitioning, written, tasks[..i], locations, files)
    {
      locations, files := TaskCanFollow(engine, jobId, stageId, partitioning, written, tasks, i, locations, files);
    }
    assert tasks[..|tasks|] == tasks;
  }

  method CollectLocations(locations: Locations, task: Task, entries: seq<ShuffleWritePartition>)
    returns (r: Locations)
    ensures r == AddAll(locations, task, entries)
    ensures DistinctPartitions(entries) ==> forall k :: 0 <= k < |entries| ==>
              LocationsAt(r, entries[k].partitionId) ==
              LocationsAt(locations, entries[k].partitionId) +
              [PartitionLocation(task.inputPartition, entries[k].partitionId, task.executorId, entries[k].path,
                                 entries[k].numRows, entries[k].numBatches)]
    ensures DistinctPartitions(entries) ==> forall q: nat :: !HasEntry(entries, q) ==>
              LocationsAt(r, q) == LocationsAt(locations, q)
  {
    r := locations;
    for k := 0 to |entries|
      invariant r == AddAll(locations, task, entries[..k])
    {
      assert entries[..k + 1][..k] == entries[..k];
      r := AddPartition(r, ToLocation(task, entries[k]));
    }
    assert entries[..|entries|] == entries;
    if DistinctPartitions(entries) {
      forall q: nat
        ensures !HasEntry(entries, q) ==> LocationsAt(r, q) == LocationsAt(locations, q)
        ensures forall k :: 0 <= k < |entries| && entries[k].partitionId == q ==>
                  LocationsAt(r, q) ==
                  LocationsAt(locations, q) +
                  [PartitionLocation(task.inputPartition, q, task.executorId, entries[k].path,
                                     entries[k].numRows, entries[k].numBatches)]
      {
        AddAllAt(locations, task, entries, q);
      }
    }
  }
}
