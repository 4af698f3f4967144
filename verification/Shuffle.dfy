/**
 Shuffle files: what a map task writes, where, and what a reader gets back.

 The rows of a file stand for its contents; encoding, compression and transport are left aside.
 */
module Shuffle {
  import opened Wrappers
  import opened Strings
  import opened Plans
  import opened Semantics

  /** The record batches a task's input yields before it ends or fails. */
  datatype Stream = Stream(batches: seq<seq<Row>>, error: Option<string>)

  datatype ShuffleWritePartition = ShuffleWritePartition(
    partitionId: nat, path: string, numBatches: nat, numRows: nat)

  /** A file being written, with its running totals. */
  datatype WriteTracker = WriteTracker(numBatches: nat, numRows: nat, rows: seq<Row>, path: string)

  type Files = map<string, seq<Row>>

  // ---------- File names ----------

  function StageDir(workDir: string, jobId: string, stageId: nat): string {
    workDir + "/" + jobId + "/" + Decimal(stageId)
  }

  /** The file `name` in the numbered subdirectory of dir. */
  function FileIn(dir: string, n: nat, name: string): string {
    dir + "/" + Decimal(n) + "/" + name
  }

  function PlainPath(dir: string, inputPartition: nat): string {
    FileIn(dir, inputPartition, "data.arrow")
  }

  function HashFileName(inputPartition: nat): (name: string)
    ensures '/' !in name
  {
    DecimalHasNoSlash(inputPartition);
    "data-" + Decimal(inputPartition) + ".arrow"
  }

  function HashPath(dir: string, outputPartition: nat, inputPartition: nat): string {
    FileIn(dir, outputPartition, HashFileName(inputPartition))
  }

  lemma DecimalHasNoSlash(n: nat)
    ensures '/' !in Decimal(n)
  {
    assert '/' !in DIGITS;
  }

  /** A path can be taken apart into directory, number and name. */
  lemma FileInInjective(dir: string, n: nat, name: string, dir': string, n': nat, name': string)
    requires '/' !in name && '/' !in name'
    requires FileIn(dir, n, name) == FileIn(dir', n', name')
    ensures dir == dir' && n == n' && name == name'
  {
    DecimalHasNoSlash(n);
    DecimalHasNoSlash(n');
    LastSeparator('/', dir + "/" + Decimal(n), name, dir' + "/" + Decimal(n'), name');
    LastSeparator('/', dir, Decimal(n), dir', Decimal(n'));
    DecimalInjective(n, n');
  }

  /** No two (directory, output, input) triples share a file. */
  lemma HashPathInjective(dir: string, q: nat, i: nat, dir': string, q': nat, i': nat)
    requires HashPath(dir, q, i) == HashPath(dir', q', i')
    ensures dir == dir' && q == q' && i == i'
  {
    var name, name' := HashFileName(i), HashFileName(i');
    FileInInjective(dir, q, name, dir', q', name');
    assert Decimal(i) == name[5..5 + |Decimal(i)|] && Decimal(i') == name'[5..5 + |Decimal(i')|];
    DecimalInjective(i, i');
  }

  lemma PlainPathInjective(dir: string, i: nat, dir': string, i': nat)
    requires PlainPath(dir, i) == PlainPath(dir', i')
    ensures dir == dir' && i == i'
  {
    FileInInjective(dir, i, "data.arrow", dir', i', "data.arrow");
  }

  /** Nor do two stages, whatever their working directories and jobs, nor two jobs of one working directory. */
  lemma StageDirInjective(w: string, j: string, s: nat, w': string, j': string, s': nat)
    requires StageDir(w, j, s) == StageDir(w', j', s')
    ensures s == s' && (w == w' ==> j == j')
  {
    DecimalHasNoSlash(s);
    DecimalHasNoSlash(s');
    LastSeparator('/', w + "/" + j, Decimal(s), w' + "/" + j', Decimal(s'));
    DecimalInjective(s, s');
    if w == w' {
      var below := w + "/";
      assert j == (below + j)[|below|..] && j' == (below + j')[|below|..];
    }
  }

  /** All files of a job are in the directory of the job, so that removing that directory removes them. */
  lemma FilesAreInJobDir(w: string, j: string, s: nat, n: nat, name: string)
    ensures w + "/" + j + "/" <= FileIn(StageDir(w, j, s), n, name)
  {
    var dir, rest := w + "/" + j + "/", Decimal(s) + "/" + Decimal(n) + "/" + name;
    assert FileIn(StageDir(w, j, s), n, name) == dir + rest;
  }

  // ---------- Rows by target partition ----------

  lemma {:induction false} RowsToConcat(
    engine: Engine, exprs: string, count: nat, q: nat, a: seq<Row>, b: seq<Row>)
    ensures RowsTo(engine, exprs, count, q, a + b) ==
            RowsTo(engine, exprs, count, q, a) + RowsTo(engine, exprs, count, q, b)
  {
    if b == [] {
      assert a + b == a;
    } else {
      assert (a + b)[..|a + b| - 1] == a + b[..|b| - 1];
      RowsToConcat(engine, exprs, count, q, a, b[..|b| - 1]);
    }
  }

  /** Hashing sends each occurrence of a row to its own target and to no other partition. */
  lemma {:induction false} RowsToMultiplicity(
    engine: Engine, exprs: string, count: nat, q: nat, rows: seq<Row>, row: Row)
    ensures multiset(RowsTo(engine, exprs, count, q, rows))[row] ==
            if Target(engine, exprs, count, row) == q then multiset(rows)[row] else 0
  {
    if rows != [] {
      var init := rows[..|rows| - 1];
      assert rows == init + [rows[|rows| - 1]];
      RowsToMultiplicity(engine, exprs, count, q, init, row);
    }
  }

  /** A row goes to the partition that the remainder of its hash says. */
  lemma RowsGoByHash(engine: Engine, exprs: string, count: nat, q: nat, rows: seq<Row>, row: Row)
    requires count > 0
    ensures row in RowsTo(engine, exprs, count, q, rows) <==> row in rows && engine.hash(exprs, row) % count == q
  {
    RowsToMultiplicity(engine, exprs, count, q, rows, row);
    var sent := RowsTo(engine, exprs, count, q, rows);
    assert row in sent <==> multiset(sent)[row] > 0;
    assert row in rows <==> multiset(rows)[row] > 0;
  }

  predicate AscendingIndices(at: seq<nat>, end: nat) {
    && (forall i :: 0 <= i < |at| ==> at[i] < end)
    && (forall i, j :: 0 <= i < j < |at| ==> at[i] < at[j])
  }

  /** The rows for a partition keep their order. */
  lemma {:induction false} RowsToKeepsOrder(engine: Engine, exprs: string, count: nat, q: nat, rows: seq<Row>)
    returns (at: seq<nat>)
    ensures |at| == |RowsTo(engine, exprs, count, q, rows)| && AscendingIndices(at, |rows|)
    ensures forall i :: 0 <= i < |at| ==> RowsTo(engine, exprs, count, q, rows)[i] == rows[at[i]]
  {
    at := [];
    if rows != [] {
      var last := |rows| - 1;
      at := RowsToKeepsOrder(engine, exprs, count, q, rows[..last]);
      if Target(engine, exprs, count, rows[last]) == q {
        at := at + [last];
      }
    }
  }

  /** How many of the batches hold a row for partition q. */
  function BatchesTo(engine: Engine, exprs: string, count: nat, q: nat, batches: seq<seq<Row>>): nat
  {
    if batches == [] then 0
    else
      BatchesTo(engine, exprs, count, q, batches[..|batches| - 1]) +
      if RowsTo(engine, exprs, count, q, batches[|batches| - 1]) == [] then 0 else 1
  }

  predicate HasRowFor(engine: Engine, exprs: string, count: nat, q: nat, batch: seq<Row>) {
    exists row :: row in batch && Target(engine, exprs, count, row) == q
  }

  lemma SomeRowsTo(engine: Engine, exprs: string, count: nat, q: nat, batch: seq<Row>)
    ensures RowsTo(engine, exprs, count, q, batch) != [] <==> HasRowFor(engine, exprs, count, q, batch)
  {
    var rows := RowsTo(engine, exprs, count, q, batch);
    if rows != [] {
      RowsToMultiplicity(engine, exprs, count, q, batch, rows[0]);
      assert multiset(rows)[rows[0]] > 0;
      assert rows[0] in multiset(batch);
    }
    if row :| row in batch && Target(engine, exprs, count, row) == q {
      RowsToMultiplicity(engine, exprs, count, q, batch, row);
      assert multiset(batch)[row] > 0;
      assert row in multiset(rows);
    }
  }

  /** The batches that hold a row for partition q. */
  function BatchesWith(engine: Engine, exprs: string, count: nat, q: nat, batches: seq<seq<Row>>): set<nat> {
    set i: nat | i < |batches| && HasRowFor(engine, exprs, count, q, batches[i])
  }

  lemma BatchesWithLast(engine: Engine, exprs: string, count: nat, q: nat, batches: seq<seq<Row>>)
    requires batches != []
    ensures var last := |batches| - 1;
            var before := BatchesWith(engine, exprs, count, q, batches[..last]);
            && last !in before
            && BatchesWith(engine, exprs, count, q, batches) ==
               if HasRowFor(engine, exprs, count, q, batches[last]) then before + {last} else before
  {}

  lemma {:induction false} BatchesToCounts(
    engine: Engine, exprs: string, count: nat, q: nat, batches: seq<seq<Row>>)
    ensures BatchesTo(engine, exprs, count, q, batches) == |BatchesWith(engine, exprs, count, q, batches)|
  {
    if batches != [] {
      var last := |batches| - 1;
      BatchesToCounts(engine, exprs, count, q, batches[..last]);
      SomeRowsTo(engine, exprs, count, q, batches[last]);
      BatchesWithLast(engine, exprs, count, q, batches);
    }
  }

  // ---------- One map task ----------

  /** The entry reports the rows of its partition, and its file holds them. */
  predicate EntryFor(
    engine: Engine, exprs: string, count: nat, dir: string, input: nat, batches: seq<seq<Row>>,
    w: ShuffleWritePartition, files: Files)
  {
    var rows := RowsTo(engine, exprs, count, w.partitionId, Rows(batches));
    && w.path == HashPath(dir, w.partitionId, input)
    && w.numRows == |rows|
    && w.numBatches == BatchesTo(engine, exprs, count, w.partitionId, batches)
    && w.path in files && files[w.path] == rows
  }

  predicate AscendingIds(entries: seq<ShuffleWritePartition>) {
    forall i, j :: 0 <= i < j < |entries| ==> entries[i].partitionId < entries[j].partitionId
  }

  predicate AllReported(entries: seq<ShuffleWritePartition>, files: Files) {
    forall path :: path in files ==> exists i :: 0 <= i < |entries| && entries[i].path == path
  }

  /** One entry, and one file, for exactly those of the first partitions that got a row. */
  ghost predicate HashWrittenUpto(
    engine: Engine, exprs: string, count: nat, dir: string, input: nat, batches: seq<seq<Row>>,
    entries: seq<ShuffleWritePartition>, files: Files, end: nat)
  {
    && AscendingIds(entries)
    && (forall q :: 0 <= q < end ==>
          (HasEntry(entries, q) <==> RowsTo(engine, exprs, count, q, Rows(batches)) != []))
    && (forall w :: w in entries ==>
          w.partitionId < end && EntryFor(engine, exprs, count, dir, input, batches, w, files))
    && AllReported(entries, files)
  }

  /** A hash write has one entry, and one file, for exactly the partitions that got a row. */
  ghost predicate HashWritten(
    engine: Engine, exprs: string, count: nat, dir: string, input: nat, batches: seq<seq<Row>>,
    entries: seq<ShuffleWritePartition>, files: Files)
  {
    HashWrittenUpto(engine, exprs, count, dir, input, batches, entries, files, count)
  }

  predicate HasEntry(entries: seq<ShuffleWritePartition>, q: nat) {
    exists i :: 0 <= i < |entries| && entries[i].partitionId == q
  }

  /** A task's report and files, for both ways of writing. */
  ghost predicate TaskWritten(
    engine: Engine, dir: string, partitioning: Option<Partitioning>, input: nat, batches: seq<seq<Row>>,
    entries: seq<ShuffleWritePartition>, files: Files)
  {
    match partitioning
    case None =>
      && entries == [ShuffleWritePartition(input, PlainPath(dir, input), |batches|, |Rows(batches)|)]
      && files == map[PlainPath(dir, input) := Rows(batches)]
    case Some(Hash(exprs, count)) => HashWritten(engine, exprs, count, dir, input, batches, entries, files)
    case Some(_) => false
  }

  /** Rows cannot be hashed to no partitions: the remainder by zero is not defined. */
  predicate CanSplit(partitioning: Option<Partitioning>, stream: Stream) {
    partitioning.Some? && partitioning.value.Hash? && partitioning.value.count == 0 ==> Rows(stream.batches) == []
  }

  /** Streams everything to one file. */
  method WriteStreamToDisk(stream: Stream)
    returns (r: Result<(nat, nat), string>, rows: seq<Row>)
    ensures r.Success? <==> stream.error.None?
    ensures r.Success? ==> rows == Rows(stream.batches) && r.value == (|rows|, |stream.batches|)
  {
    var numRows, numBatches := 0, 0;
    rows := [];
    for i := 0 to |stream.batches|
      invariant rows == Rows(stream.batches[..i]) && numRows == |rows| && numBatches == i
    {
      assert stream.batches[..i + 1][..i] == stream.batches[..i];
      numBatches := numBatches + 1;
      numRows := numRows + |stream.batches[i]|;
      rows := rows + stream.batches[i];
    }
    assert stream.batches[..|stream.batches|] == stream.batches;
    match stream.error {
      case Some(e) => r := Failure(e);
      case None => r := Success((numRows, numBatches));
    }
  }

  /** A writer is opened with the first row. */
  function Tracker(numBatches: nat, rows: seq<Row>, path: string): Option<WriteTracker> {
    if rows == [] then None else Some(WriteTracker(numBatches, |rows|, rows, path))
  }

  /** The tracker of partition q after the given batches: none until the first row for it. */
  function TrackerAfter(
    engine: Engine, exprs: string, count: nat, dir: string, input: nat, q: nat, batches: seq<seq<Row>>)
    : Option<WriteTracker>
  {
    Tracker(BatchesTo(engine, exprs, count, q, batches), RowsTo(engine, exprs, count, q, Rows(batches)),
            HashPath(dir, q, input))
  }

  /** A tracker that exists is appended to, a missing one is created on demand. */
  function Appended(tracker: Option<WriteTracker>, out: seq<Row>, path: string): Option<WriteTracker> {
    if out == [] then tracker
    else match tracker
      case None => Some(WriteTracker(1, |out|, out, path))
      case Some(w) => Some(WriteTracker(w.numBatches + 1, w.numRows + |out|, w.rows + out, w.path))
  }

  lemma TrackerAppended(numBatches: nat, rows: seq<Row>, out: seq<Row>, path: string)
    requires numBatches == 0 <==> rows == []
    ensures Appended(Tracker(numBatches, rows, path), out, path) ==
            Tracker(numBatches + (if out == [] then 0 else 1), rows + out, path)
  {
    assert rows + [] == rows && [] + out == out;
  }

  lemma OneMoreBatch(
    engine: Engine, exprs: string, count: nat, q: nat, batches: seq<seq<Row>>, batch: seq<Row>)
    ensures var out := RowsTo(engine, exprs, count, q, batch);
            && RowsTo(engine, exprs, count, q, Rows(batches + [batch])) ==
               RowsTo(engine, exprs, count, q, Rows(batches)) + out
            && BatchesTo(engine, exprs, count, q, batches + [batch]) ==
               BatchesTo(engine, exprs, count, q, batches) + if out == [] then 0 else 1
  {
    var all := batches + [batch];
    assert all[..|all| - 1] == batches && all[|all| - 1] == batch;
    assert Rows(all) == Rows(batches) + batch;
    RowsToConcat(engine, exprs, count, q, Rows(batches), batch);
  }

  /** The trackers after one more batch. */
  lemma TrackerStep(
    engine: Engine, exprs: string, count: nat, dir: string, input: nat, q: nat,
    batches: seq<seq<Row>>, batch: seq<Row>)
    ensures TrackerAfter(engine, exprs, count, dir, input, q, batches + [batch]) ==
            Appended(TrackerAfter(engine, exprs, count, dir, input, q, batches),
                     RowsTo(engine, exprs, count, q, batch), HashPath(dir, q, input))
  {
    OneMoreBatch(engine, exprs, count, q, batches, batch);
    NoBatchesWithoutRows(engine, exprs, count, q, batches);
    TrackerAppended(
      BatchesTo(engine, exprs, count, q, batches), RowsTo(engine, exprs, count, q, Rows(batches)),
      RowsTo(engine, exprs, count, q, batch), HashPath(dir, q, input));
  }

  lemma {:induction false} NoBatchesWithoutRows(
    engine: Engine, exprs: string, count: nat, q: nat, batches: seq<seq<Row>>)
    ensures BatchesTo(engine, exprs, count, q, batches) == 0 <==> RowsTo(engine, exprs, count, q, Rows(batches)) == []
  {
    if batches != [] {
      var init := batches[..|batches| - 1];
      NoBatchesWithoutRows(engine, exprs, count, q, init);
      RowsToConcat(engine, exprs, count, q, Rows(init), batches[|batches| - 1]);
    }
  }

  /** Runs the task of one input partition. */
  method ExecuteShuffleWrite(
    engine: Engine, workDir: string, jobId: string, stageId: nat, partitioning: Option<Partitioning>,
    inputPartition: nat, stream: Stream)
    returns (r: Result<seq<ShuffleWritePartition>, string>, files: Files)
    requires CanSplit(partitioning, stream)
    ensures r.Success? <==> stream.error.None? && (partitioning.None? || partitioning.value.Hash?)
    ensures r.Success? ==>
              TaskWritten(engine, StageDir(workDir, jobId, stageId), partitioning, inputPartition,
                          stream.batches, r.value, files)
  {
    files := map[];
    var dir := StageDir(workDir, jobId, stageId);
    match partitioning {
      case None =>
        var path := PlainPath(dir, inputPartition);
        var stats, rows := WriteStreamToDisk(stream);
        match stats {
          case Failure(e) => r := Failure(e);
          case Success((numRows, numBatches)) =>
            files := map[path := rows];
            r := Success([ShuffleWritePartition(inputPartition, path, numBatches, numRows)]);
        }
      case Some(Hash(exprs, count)) =>
        var writers := new Option<WriteTracker>[count](_ => None);
        for i := 0 to |stream.batches|
          invariant fresh(writers)
          invariant forall q :: 0 <= q < count ==>
                      writers[q] == TrackerAfter(engine, exprs, count, dir, inputPartition, q, stream.batches[..i])
        {
          WriteBatch(engine, exprs, count, dir, inputPartition, stream.batches[..i], stream.batches[i], writers);
          assert stream.batches[..i] + [stream.batches[i]] == stream.batches[..i + 1];
        }
        if stream.error.Some? {
          return Failure(stream.error.value), files;
        }
        assert stream.batches[..|stream.batches|] == stream.batches;
        var partLocs;
        partLocs, files := FinishWriters(engine, exprs, count, dir, inputPartition, stream.batches, writers);
        r := Success(partLocs);
      case Some(_) =>
        r := Failure("Invalid shuffle partitioning scheme");
    }
  }

  /** Splits a batch by hash and appends each non-empty part to its writer. */
  method WriteBatch(
    engine: Engine, exprs: string, count: nat, dir: string, input: nat,
    ghost before: seq<seq<Row>>, batch: seq<Row>, writers: array<Option<WriteTracker>>)
    requires writers.Length == count
    requires forall q :: 0 <= q < count ==>
               writers[q] == TrackerAfter(engine, exprs, count, dir, input, q, before)
    modifies writers
    ensures forall q :: 0 <= q < count ==>
              writers[q] == TrackerAfter(engine, exprs, count, dir, input, q, before + [batch])
  {
    ghost var was := writers[..];
    for q := 0 to count
      invariant forall j :: 0 <= j < q ==>
                  writers[j] == Appended(was[j], RowsTo(engine, exprs, count, j, batch), HashPath(dir, j, input))
      invariant forall j :: q <= j < count ==> writers[j] == was[j]
    {
      var out := RowsTo(engine, exprs, count, q, batch);
      if out != [] {
        match writers[q] {
          case Some(w) =>
            writers[q] := Some(WriteTracker(w.numBatches + 1, w.numRows + |out|, w.rows + out, w.path));
          case None =>
            writers[q] := Some(WriteTracker(1, |out|, out, HashPath(dir, q, input)));
        }
      }
    }
    forall q | 0 <= q < count
      ensures writers[q] == TrackerAfter(engine, exprs, count, dir, input, q, before + [batch])
    {
      TrackerStep(engine, exprs, count, dir, input, q, before, batch);
    }
  }

  /** Closes the files that were opened and reports them. */
  method FinishWriters(
    engine: Engine, exprs: string, count: nat, dir: string, input: nat, ghost batches: seq<seq<Row>>,
    writers: array<Option<WriteTracker>>)
    returns (partLocs: seq<ShuffleWritePartition>, files: Files)
    requires writers.Length == count
    requires forall q :: 0 <= q < count ==>
               writers[q] == TrackerAfter(engine, exprs, count, dir, input, q, batches)
    ensures HashWritten(engine, exprs, count, dir, input, batches, partLocs, files)
  {
    partLocs, files := [], map[];
    for i := 0 to count
      invariant HashWrittenUpto(engine, exprs, count, dir, input, batches, partLocs, files, i)
    {
      EntryWritten(engine, exprs, count, dir, input, batches, partLocs, files, i);
      match writers[i] {
        case Some(w) =>
          partLocs := partLocs + [ShuffleWritePartition(i, w.path, w.numBatches, w.numRows)];
          files := files[w.path := w.rows];
        case None =>
      }
    }
  }

  /** The next partition is reported and has a file if and only if it got a row. */
  lemma EntryWritten(
    engine: Engine, exprs: string, count: nat, dir: string, input: nat, batches: seq<seq<Row>>,
    entries: seq<ShuffleWritePartition>, files: Files, i: nat)
    requires i < count && HashWrittenUpto(engine, exprs, count, dir, input, batches, entries, files, i)
    ensures match TrackerAfter(engine, exprs, count, dir, input, i, batches)
            case None => HashWrittenUpto(engine, exprs, count, dir, input, batches, entries, files, i + 1)
            case Some(w) =>
              HashWrittenUpto(
                engine, exprs, count, dir, input, batches,
                entries + [ShuffleWritePartition(i, w.path, w.numBatches, w.numRows)], files[w.path := w.rows], i + 1)
  {
    var rows := RowsTo(engine, exprs, count, i, Rows(batches));
    if rows == [] {
      NoEntry(engine, exprs, count, dir, input, batches, entries, files, i);
    } else {
      var entry := ShuffleWritePartition(
        i, HashPath(dir, i, input), BatchesTo(engine, exprs, count, i, batches), |rows|);
      OneEntryMore(engine, exprs, count, dir, input, batches, entries, files, entry, rows);
    }
  }

  lemma NoEntry(
    engine: Engine, exprs: string, count: nat, dir: string, input: nat, batches: seq<seq<Row>>,
    entries: seq<ShuffleWritePartition>, files: Files, i: nat)
    requires HashWrittenUpto(engine, exprs, count, dir, input, batches, entries, files, i)
    requires RowsTo(engine, exprs, count, i, Rows(batches)) == []
    ensures HashWrittenUpto(engine, exprs, count, dir, input, batches, entries, files, i + 1)
  {}

  lemma OneEntryMore(
    engine: Engine, exprs: string, count: nat, dir: string, input: nat, batches: seq<seq<Row>>,
    entries: seq<ShuffleWritePartition>, files: Files, entry: ShuffleWritePartition, rows: seq<Row>)
    requires HashWrittenUpto(engine, exprs, count, dir, input, batches, entries, files, entry.partitionId)
    requires rows == RowsTo(engine, exprs, count, entry.partitionId, Rows(batches)) && rows != []
    requires EntryFor(engine, exprs, count, dir, input, batches, entry, map[entry.path := rows])
    ensures HashWrittenUpto(engine, exprs, count, dir, input, batches, entries + [entry],
                            files[entry.path := rows], entry.partitionId + 1)
  {
    EntryAppended(entries, files, entry, rows);
    EntriesKept(engine, exprs, count, dir, input, batches, entries, files, entry, rows);
  }

  /** There are files and a report for every task. */
  lemma HashCanBeWritten(
    engine: Engine, exprs: string, count: nat, dir: string, input: nat, batches: seq<seq<Row>>, end: nat)
    returns (entries: seq<ShuffleWritePartition>, files: Files)
    requires end <= count
    ensures HashWrittenUpto(engine, exprs, count, dir, input, batches, entries, files, end)
  {
    entries, files := [], map[];
    for q := 0 to end
      invariant HashWrittenUpto(engine, exprs, count, dir, input, batches, entries, files, q)
    {
      EntryWritten(engine, exprs, count, dir, input, batches, entries, files, q);
      var tracker := TrackerAfter(engine, exprs, count, dir, input, q, batches);
      if tracker.Some? {
        var w := tracker.value;
        entries := entries + [ShuffleWritePartition(q, w.path, w.numBatches, w.numRows)];
        files := files[w.path := w.rows];
      }
    }
  }

  lemma TaskCanBeWritten(
    engine: Engine, dir: string, partitioning: Option<Partitioning>, input: nat, batches: seq<seq<Row>>)
    returns (entries: seq<ShuffleWritePartition>, files: Files)
    requires partitioning.None? || partitioning.value.Hash?
    ensures TaskWritten(engine, dir, partitioning, input, batches, entries, files)
  {
    match partitioning
    case None =>
      entries := [ShuffleWritePartition(input, PlainPath(dir, input), |batches|, |Rows(batches)|)];
      files := map[PlainPath(dir, input) := Rows(batches)];
    case Some(Hash(exprs, count)) =>
      entries, files := HashCanBeWritten(engine, exprs, count, dir, input, batches, count);
  }

  lemma EntriesKept(
    engine: Engine, exprs: string, count: nat, dir: string, input: nat, batches: seq<seq<Row>>,
    entries: seq<ShuffleWritePartition>, files: Files, entry: ShuffleWritePartition, rows: seq<Row>)
    requires entry.path == HashPath(dir, entry.partitionId, input)
    requires forall w :: w in entries ==>
               w.partitionId < entry.partitionId && EntryFor(engine, exprs, count, dir, input, batches, w, files)
    ensures forall w :: w in entries ==>
               EntryFor(engine, exprs, count, dir, input, batches, w, files[entry.path := rows])
  {
    forall w | w in entries
      ensures EntryFor(engine, exprs, count, dir, input, batches, w, files[entry.path := rows])
    {
      if w.path == entry.path {
        HashPathInjective(dir, w.partitionId, input, dir, entry.partitionId, input);
      }
    }
  }

  lemma EntryAppended(
    entries: seq<ShuffleWritePartition>, files: Files, entry: ShuffleWritePartition, rows: seq<Row>)
    requires forall w :: w in entries ==> w.partitionId < entry.partitionId
    requires AscendingIds(entries) && AllReported(entries, files)
    ensures AscendingIds(entries + [entry]) && AllReported(entries + [entry], files[entry.path := rows])
    ensures forall q: nat :: HasEntry(entries + [entry], q) <==> HasEntry(entries, q) || q == entry.partitionId
    ensures forall e :: e in entries + [entry] <==> e in entries || e == entry
  {
    var all := entries + [entry];
    assert all[|entries|] == entry && forall i :: 0 <= i < |entries| ==> all[i] == entries[i] && entries[i] in entries;
    forall q: nat | HasEntry(entries, q) ensures HasEntry(all, q) {
      var i :| 0 <= i < |entries| && entries[i].partitionId == q;
      assert all[i].partitionId == q;
    }
    forall path | path in files ensures exists i :: 0 <= i < |all| && all[i].path == path {
      var i :| 0 <= i < |entries| && entries[i].path == path;
      assert all[i].path == path;
    }
  }
}
