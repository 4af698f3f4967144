/**
 A query that the cluster gets wrong: two rows are brought together, limited to one, and that one is copied
 to two partitions. In one process both copies are the same row; on the cluster each of the two tasks
 evaluates the limit on its own.
 */
module LimitExample {
  import opened Wrappers
  import opened Plans
  import opened Planner
  import opened StageStructure
  import opened Semantics
  import opened StageCorrectness
  import opened TaskResults
  import opened Exchange
  import opened Resolution
  import opened QueryExecution
  import opened JobProgress
  import opened TaskIndependence

  const SCANNED: Table := [[ROW_A], [ROW_B]]

  const SCAN: Operator := Other("scan")
  const LIMIT: Operator := Other("limit 1")
  const COPY: Operator := Other("copy")

  const QUERY: Plan := Plan(COPY, [Plan(LIMIT, [Plan(CoalescePartitions, [Plan(SCAN, [])])])])

  const CATALOG: Catalog := Catalog((op, _) => if op == LIMIT then 1 else 2, (_, _) => ["row"])

  function Input(ins: seq<Table>): seq<Row> {
    if ins == [] then [] else Rows(ins[0])
  }

  function Limited(rows: seq<Row>): seq<Row> {
    if rows == [] then [] else [rows[0]]
  }

  const ENGINE: Engine := Engine(
    (op, ins, out) =>
      if op == SCAN then out == SCANNED
      else if op == LIMIT then out == [Limited(Input(ins))]
      else out == [Input(ins), Input(ins)],
    (ordering, input, rows) => rows == Rows(input),
    (exprs, row) => 0)

  lemma DifferentOperators()
    ensures SCAN != LIMIT && SCAN != COPY && LIMIT != COPY
  {
    assert SCAN.name[0] == 's' && LIMIT.name[0] == 'l' && COPY.name[0] == 'c';
  }

  lemma EngineIsTotal()
    ensures Total(ENGINE, CATALOG)
  {
    forall op, ins ensures Operates(ENGINE, CATALOG, op, ins) {
      var out := if op == SCAN then SCANNED
                 else if op == LIMIT then [Limited(Input(ins))] else [Input(ins), Input(ins)];
      assert ENGINE.operate(op, ins, out) && |out| == CATALOG.partitions(op, Counts(ins));
    }
    forall ordering, input ensures Merges(ENGINE, ordering, input) {
      assert ENGINE.merge(ordering, input, Rows(input));
    }
  }

  lemma RowsOfOne(rows: seq<Row>)
    ensures Rows([rows]) == rows
  {
    assert [rows][..0] == [];
    assert [] + rows == rows;
  }

  lemma RowsOfScan()
    ensures Rows(SCANNED) == [ROW_A, ROW_B]
  {
    RowsOfOne([ROW_A]);
    assert SCANNED[..1] == [[ROW_A]];
  }

  // ---------- In one process ----------

  lemma CopiesAgree(ctx: Context, p: Plan, out: Table)
    requires p.op == COPY && Denotes(ENGINE, ctx, p, out)
    ensures |out| == 2 && out[0] == out[1]
  {
    var ins :| DenotesAll(ENGINE, ctx, p.children, ins) && Applies(ENGINE, p.op, ins, out);
  }

  // ---------- The stages ----------

  function ScanStage(jobId: string): Plan {
    CreateShuffleWriter(jobId, 1, Plan(SCAN, []), None)
  }

  function ScanReference(jobId: string): Plan {
    CreateUnresolvedShuffle(CATALOG, ScanStage(jobId))
  }

  function Limiting(input: Plan): Plan {
    Plan(COPY, [Plan(LIMIT, [Plan(CoalescePartitions, [input])])])
  }

  function LastStage(jobId: string): Plan {
    CreateShuffleWriter(jobId, 2, Limiting(ScanReference(jobId)), None)
  }

  lemma CutOne(cat: Catalog, jobId: string, p: Plan, next: nat)
    requires |p.children| == 1 && CutPlan(cat, jobId, p.children[0], next).Cut?
    ensures var Cut(q, stages, n) := CutPlan(cat, jobId, p.children[0], next);
            CutPlan(cat, jobId, p, next) == CutRoot(cat, jobId, p.op, [q], stages, n)
  {
    var Cut(q, stages, n) := CutPlan(cat, jobId, p.children[0], next);
    assert CutChildren(cat, jobId, p.children[..0], next) == CutAll([], [], next);
    assert [] + [q] == [q] && [] + stages == stages;
    assert CutChildren(cat, jobId, p.children, next) == CutAll([q], stages, n);
  }

  lemma StagesOfQuery(jobId: string)
    ensures StagesOf(CATALOG, jobId, QUERY, 0) == Success([ScanStage(jobId), LastStage(jobId)])
  {
    var limit := QUERY.children[0];
    var coalesce := limit.children[0];
    CutOne(CATALOG, jobId, coalesce, 0);
    CutOne(CATALOG, jobId, limit, 0);
    CutOne(CATALOG, jobId, QUERY, 0);
    assert [] + [ScanStage(jobId)] == [ScanStage(jobId)];
    assert [ScanStage(jobId)] + [LastStage(jobId)] == [ScanStage(jobId), LastStage(jobId)];
  }

  // ---------- On the cluster ----------

  lemma ScanGives(ctx: Context, jobId: string, out: Table)
    requires Denotes(ENGINE, ctx, ScanStage(jobId), out)
    ensures out == SCANNED
  {
    var _ := InputOfUnary(ENGINE, ctx, ScanStage(jobId), out);
    var ins :| DenotesAll(ENGINE, ctx, [], ins) && Applies(ENGINE, SCAN, ins, out);
  }

  /** The scan stage runs. */
  lemma ScanRuns(jobId: string, stages: seq<Plan>) returns (runs: seq<StageRun>)
    requires stages != [] && stages[0] == ScanStage(jobId) && Planned(CATALOG, jobId, stages, 0)
    ensures Executes(ENGINE, CATALOG, jobId, stages, runs) && StagesRun(runs) == stages[..1]
    ensures 1 in After(runs).outputs && After(runs).outputs[1] == StageOutput(None, SCANNED)
  {
    EngineIsTotal();
    var written := NextMayWrite(ENGINE, CATALOG, jobId, stages, 0, 0, []);
    ScanGives(Context(After([]).outputs, map[]), jobId, written);
    var run := NextCanRun(ENGINE, CATALOG, jobId, stages, 0, 0, [], written);
    runs := [] + [run];
    assert stages[..0] == [];
  }

  /** The reader made for the scan gives its two partitions. */
  lemma ReaderGivesScan(jobId: string, done: seq<Plan>, s: Progress)
    requires Consistent(ENGINE, CATALOG, jobId, done, s) && done == [ScanStage(jobId)]
    requires 1 in s.outputs && s.outputs[1] == StageOutput(None, SCANNED)
    ensures 1 in s.locations
    ensures Denotes(ENGINE, Context(map[], s.files), ReaderFor(ScanReference(jobId).op, s.locations[1]), SCANNED)
  {
    var ref := ScanReference(jobId);
    assert Names(CATALOG, ref.op, done[0]);
    LocatedFilesPresent(ENGINE, CATALOG, jobId, done, s, [ref.op]);
    assert ref.op in [ref.op];
    var reader := ReaderFor(ref.op, s.locations[1]);
    var out := ReaderResult(reader.op.partition, s.files);
    assert Denotes(ENGINE, Context(map[], s.files), reader, out);
    ReferenceMeansTheSame(ENGINE, CATALOG, ref, done, s.locations, s.files, s.outputs, out);
  }

  lemma LimitingResolved(ref: Plan, locations: map<nat, Locations>)
    requires ref.op.UnresolvedShuffle? && ref.op.stageId in locations
    ensures ResolveChild(Limiting(ref), locations) ==
            Success(Limiting(ReaderFor(ref.op, locations[ref.op.stageId])))
  {
    var p := Limiting(ref);
    ResolvedOne(p.children[0].children[0], locations);
    ResolvedOne(p.children[0], locations);
    ResolvedOne(p, locations);
  }

  /** Whichever row comes first is limited to, and copied. */
  lemma LimitCopiesTheFirst(ctx: Context, input: Plan, rows: seq<Row>)
    requires Denotes(ENGINE, ctx, input, SCANNED)
    requires multiset(rows) == multiset([ROW_A, ROW_B]) && |rows| == 2
    ensures Denotes(ENGINE, ctx, Limiting(input), [[rows[0]], [rows[0]]])
  {
    var p, first := Limiting(input), [rows[0]];
    var limit := p.children[0];
    StepsOfLimiting(rows);
    DenotesUnary(ENGINE, ctx, limit.children[0], SCANNED, [rows]);
    DenotesUnary(ENGINE, ctx, limit, [rows], [first]);
    DenotesUnary(ENGINE, ctx, p, [first], [first, first]);
  }

  lemma StepsOfLimiting(rows: seq<Row>)
    requires multiset(rows) == multiset([ROW_A, ROW_B]) && |rows| == 2
    ensures Applies(ENGINE, CoalescePartitions, [SCANNED], [rows])
    ensures Applies(ENGINE, LIMIT, [[rows]], [[rows[0]]])
    ensures Applies(ENGINE, COPY, [[[rows[0]]]], [[rows[0]], [rows[0]]])
  {
    DifferentOperators();
    RowsOfScan();
    RowsOfOne(rows);
    RowsOfOne([rows[0]]);
    assert Input([[rows]]) == rows && Input([[[rows[0]]]]) == [rows[0]];
  }

  /** The two tasks of the last stage, one of which sees the one row first and the other the other. */
  lemma TasksDisagree(ctx: Context, input: Plan)
    requires Denotes(ENGINE, ctx, input, SCANNED)
    ensures TaskWise(ENGINE, ctx, Limiting(input), SCANNED)
  {
    LimitCopiesTheFirst(ctx, input, [ROW_A, ROW_B]);
    LimitCopiesTheFirst(ctx, input, [ROW_B, ROW_A]);
    var a, b := [[ROW_A], [ROW_A]], [[ROW_B], [ROW_B]];
    TwoResults(ENGINE, ctx, Limiting(input), a, b, 1);
    assert a[1 := b[1]] == SCANNED;
  }

  lemma LastIsExecutable(jobId: string)
    ensures Executable(LastStage(jobId)) && PartitionCount(CATALOG, LastStage(jobId).children[0]) == 2
  {
    var limit := Limiting(ScanReference(jobId)).children[0];
    assert NoWriter(limit.children[0]);
    assert NoWriter(limit);
  }

  lemma LastMayWriteBoth(jobId: string, stages: seq<Plan>, before: seq<StageRun>)
    requires |stages| == 2 && stages[0] == ScanStage(jobId) && stages[1] == LastStage(jobId)
    requires Planned(CATALOG, jobId, stages, 0)
    requires Executes(ENGINE, CATALOG, jobId, stages, before) && StagesRun(before) == stages[..1]
    requires 1 in After(before).outputs && After(before).outputs[1] == StageOutput(None, SCANNED)
    ensures MayWrite(ENGINE, CATALOG, After(before), stages[1], SCANNED)
  {
    ExecutionIsConsistent(ENGINE, CATALOG, jobId, stages, 0, before);
    LastMayWrite(jobId, stages[..1], After(before));
  }

  lemma LastMayWrite(jobId: string, done: seq<Plan>, s: Progress)
    requires Consistent(ENGINE, CATALOG, jobId, done, s) && done == [ScanStage(jobId)]
    requires 1 in s.outputs && s.outputs[1] == StageOutput(None, SCANNED)
    ensures MayWrite(ENGINE, CATALOG, s, LastStage(jobId), SCANNED)
  {
    var ref, stage := ScanReference(jobId), LastStage(jobId);
    ReaderGivesScan(jobId, done, s);
    LimitingResolved(ref, s.locations);
    TasksDisagree(Context(map[], s.files), ReaderFor(ref.op, s.locations[1]));
    ResolvedOne(stage, s.locations);
    LastIsExecutable(jobId);
    InputMayBeWritten(ENGINE, CATALOG, s, stage, SCANNED);
  }

  lemma QueryIsWellFormed()
    ensures WellFormed(QUERY) && IsQuery(QUERY) && HasNoWindowAgg(QUERY)
  {
    var limit := QUERY.children[0];
    var coalesce := limit.children[0];
    assert WellFormed(coalesce) && IsQuery(coalesce) && HasNoWindowAgg(coalesce);
    assert WellFormed(limit) && IsQuery(limit) && HasNoWindowAgg(limit);
  }

  /** The cluster may answer with two different rows; the query never does. */
  lemma LimitIsEvaluatedTwice(jobId: string) returns (runs: seq<StageRun>)
    ensures WellFormed(QUERY) && IsQuery(QUERY) && HasNoWindowAgg(QUERY)
    ensures StagesOf(CATALOG, jobId, QUERY, 0).Success?
    ensures Finishes(ENGINE, CATALOG, jobId, StagesOf(CATALOG, jobId, QUERY, 0).value, runs, 1)
    ensures runs[1].written == [[ROW_A], [ROW_B]]
    ensures !Denotes(ENGINE, NOTHING_RUN, Stripped(QUERY), [[ROW_A], [ROW_B]])
  {
    StagesOfQuery(jobId);
    QueryIsWellFormed();
    QueryIsPlanned(CATALOG, jobId, QUERY, 0);
    runs := ClusterDisagrees(jobId, StagesOf(CATALOG, jobId, QUERY, 0).value);
    if Denotes(ENGINE, NOTHING_RUN, Stripped(QUERY), SCANNED) {
      CopiesAgree(NOTHING_RUN, Stripped(QUERY), SCANNED);
    }
  }

  lemma ClusterDisagrees(jobId: string, stages: seq<Plan>) returns (runs: seq<StageRun>)
    requires |stages| == 2 && stages[0] == ScanStage(jobId) && stages[1] == LastStage(jobId)
    requires Planned(CATALOG, jobId, stages, 0)
    ensures Finishes(ENGINE, CATALOG, jobId, stages, runs, 1) && runs[1].written == SCANNED
  {
    var before := ScanRuns(jobId, stages);
    LastMayWriteBoth(jobId, stages, before);
    var run := NextCanRun(ENGINE, CATALOG, jobId, stages, 0, 1, before, SCANNED);
    runs := before + [run];
    assert stages[..2] == stages;
    AllRunFinishes(ENGINE, CATALOG, jobId, stages, runs);
  }
}
