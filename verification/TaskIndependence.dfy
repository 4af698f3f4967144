/**
 When the tasks of a query need not agree: every task evaluates the plan of its stage anew, and what they
 write together has to be a result nevertheless. It is one for every query whose operators work partition
 by partition, and for an arbitrary engine exactly if no stage with two or more tasks does more than read.
 */
module TaskIndependence {
  import opened Wrappers
  import opened Plans
  import opened Planner
  import opened StageStructure
  import opened Semantics
  import opened StageCorrectness
  import opened TaskResults
  import opened Shuffle
  import opened Exchange
  import opened Resolution
  import opened QueryExecution
  import opened JobProgress

  // ---------- Queries that work partition by partition ----------

  /** Apart from exchanges, and repartitions that are dropped, the operators are partition-local. */
  ghost predicate LocalOperators(engine: Engine, p: Plan) {
    && (IsExchange(p.op) || p.op.Repartition? || PartitionLocal(engine, p.op))
    && forall i :: 0 <= i < |p.children| ==> LocalOperators(engine, p.children[i])
  }

  ghost predicate AllSplice(engine: Engine, ps: seq<Plan>) {
    forall i :: 0 <= i < |ps| ==> Splices(engine, ps[i])
  }

  lemma {:induction false} CutSplices(engine: Engine, cat: Catalog, jobId: string, p: Plan, next: nat)
    requires WellFormed(p) && IsQuery(p) && LocalOperators(engine, p) && CutPlan(cat, jobId, p, next).Cut?
    ensures Splices(engine, CutPlan(cat, jobId, p, next).plan)
    ensures AllSplice(engine, CutPlan(cat, jobId, p, next).stages)
    decreases p, 1
  {
    if p.children != [] {
      CutForestSplices(engine, cat, jobId, p.children, next);
    }
  }

  lemma {:induction false} CutForestSplices(engine: Engine, cat: Catalog, jobId: string, ps: seq<Plan>, next: nat)
    requires forall i :: 0 <= i < |ps| ==> WellFormed(ps[i]) && IsQuery(ps[i]) && LocalOperators(engine, ps[i])
    requires CutChildren(cat, jobId, ps, next).CutAll?
    ensures AllSplice(engine, CutChildren(cat, jobId, ps, next).plans)
    ensures AllSplice(engine, CutChildren(cat, jobId, ps, next).stages)
    decreases ps, 0
  {
    if ps != [] {
      var front, last := ps[..|ps| - 1], ps[|ps| - 1];
      CutForestSplices(engine, cat, jobId, front, next);
      CutSplices(engine, cat, jobId, last, CutChildren(cat, jobId, front, next).nextStageId);
    }
  }

  lemma LocalStagesAreCoherent(engine: Engine, cat: Catalog, jobId: string, p: Plan, next: nat)
    requires WellFormed(p) && IsQuery(p) && HasNoWindowAgg(p) && LocalOperators(engine, p)
    ensures StagesOf(cat, jobId, p, next).Success?
    ensures AllCoherent(engine, cat, StagesOf(cat, jobId, p, next).value)
  {
    CutSucceedsIff(cat, jobId, p, next);
    CutSplices(engine, cat, jobId, p, next);
  }

  /** The cluster computes every query whose operators work partition by partition. */
  lemma ClusterComputesLocalQueries(
    engine: Engine, cat: Catalog, jobId: string, p: Plan, next: nat, runs: seq<StageRun>, i: nat)
    requires WellFormed(p) && IsQuery(p) && HasNoWindowAgg(p) && LocalOperators(engine, p)
    requires StagesOf(cat, jobId, p, next).Success? ==>
               Finishes(engine, cat, jobId, StagesOf(cat, jobId, p, next).value, runs, i)
    ensures i < |runs| && Denotes(engine, NOTHING_RUN, Stripped(p), runs[i].written)
  {
    LocalStagesAreCoherent(engine, cat, jobId, p, next);
    ClusterComputesTheQuery(engine, cat, jobId, p, next, runs, i);
  }

  // ---------- Arbitrary engines ----------

  /** The stage does nothing but read, or has at most one task. */
  predicate Simple(cat: Catalog, stage: Plan) {
    && |stage.children| == 1
    && (stage.children[0].op.UnresolvedShuffle? || PartitionCount(cat, stage.children[0]) <= 1)
  }

  predicate AllSimple(cat: Catalog, stages: seq<Plan>) {
    forall k :: 0 <= k < |stages| ==> Simple(cat, stages[k])
  }

  lemma ReadingSplices(engine: Engine, stage: Plan)
    requires stage.op.ShuffleWriter? && |stage.children| == 1
    ensures stage.children[0].op.UnresolvedShuffle? ==> Splices(engine, stage)
  {
    assert stage.children[0].op.UnresolvedShuffle? ==> Splices(engine, stage.children[0]);
  }

  lemma SimpleIsCoherent(engine: Engine, cat: Catalog, stages: seq<Plan>)
    requires AllSimple(cat, stages) && forall k :: 0 <= k < |stages| ==> stages[k].op.ShuffleWriter?
    ensures AllCoherent(engine, cat, stages)
  {
    forall k | 0 <= k < |stages| ensures Coherent(engine, cat, stages[k]) {
      ReadingSplices(engine, stages[k]);
    }
  }

  /** Operators have at least one partition, and so has what a stage writes. */
  ghost predicate Positive(cat: Catalog, stages: seq<Plan>) {
    && (forall op, counts :: cat.partitions(op, counts) > 0)
    && forall k :: 0 <= k < |stages| ==> PositivelyWritten(stages[k])
  }

  predicate PositivelyWritten(stage: Plan) {
    && stage.op.ShuffleWriter?
    && (stage.op.shuffleOutputPartitioning.Some? ==> stage.op.shuffleOutputPartitioning.value.count > 0)
  }

  // ---------- An engine that decides anew every time ----------

  const ROW_A: Row := Row(["a"])
  const ROW_B: Row := Row(["b"])
  const ROW_C: Row := Row(["c"])

  /** One row in each partition. */
  function Copies(row: Row, n: nat): Table {
    seq(n, _ => [row])
  }

  predicate Only(row: Row, t: Table) {
    forall r :: r in Rows(t) ==> r == row
  }

  /** Nothing but the first row, or nothing but the second. */
  predicate Plain(t: Table) {
    Only(ROW_A, t) || Only(ROW_B, t)
  }

  predicate AllPlain(ts: seq<Table>) {
    forall i :: 0 <= i < |ts| ==> Plain(ts[i])
  }

  /** What an operator gives: one of two tables, and a third one if an input mixes the two. */
  predicate Decides(cat: Catalog, op: Operator, ins: seq<Table>, out: Table) {
    var n := cat.partitions(op, Counts(ins));
    if AllPlain(ins) then out == Copies(ROW_A, n) || out == Copies(ROW_B, n) else out == Copies(ROW_C, n)
  }

  function Deciding(cat: Catalog): Engine {
    Engine(
      (op, ins, out) => Decides(cat, op, ins, out),
      (ordering, input, rows) => rows == Rows(input),
      (exprs, row) => 0)
  }

  lemma DecidingIsTotal(cat: Catalog)
    ensures Total(Deciding(cat), cat)
  {
    var engine := Deciding(cat);
    forall op, ins ensures Operates(engine, cat, op, ins) {
      var n := cat.partitions(op, Counts(ins));
      var out := if AllPlain(ins) then Copies(ROW_A, n) else Copies(ROW_C, n);
      assert engine.operate(op, ins, out) && |out| == n;
    }
    forall ordering, input ensures Merges(engine, ordering, input) {
      assert engine.merge(ordering, input, Rows(input));
    }
  }

  lemma {:induction false} RowsMember(t: Table, row: Row)
    ensures row in Rows(t) <==> exists q :: 0 <= q < |t| && row in t[q]
  {
    if t != [] {
      var front := t[..|t| - 1];
      RowsMember(front, row);
      if q :| 0 <= q < |t| && row in t[q] {
        assert q < |front| ==> row in front[q];
      }
    }
  }

  lemma CopiesRows(row: Row, n: nat, r: Row)
    ensures r in Rows(Copies(row, n)) <==> n > 0 && r == row
  {
    RowsMember(Copies(row, n), r);
    if n > 0 && r == row {
      assert Copies(row, n)[0] == [row];
    }
  }

  predicate SameMembers(s: Table, t: Table) {
    (forall r :: r in Rows(s) ==> r in Rows(t)) && (forall r :: r in Rows(t) ==> r in Rows(s))
  }

  lemma HashKeepsRows(engine: Engine, exprs: string, count: nat, input: Table, out: Table)
    requires HashPartitioned(engine, exprs, count, input, out)
    ensures forall r :: r in Rows(out) ==> r in Rows(input)
    ensures count > 0 ==> SameMembers(input, out)
  {
    forall r ensures r in Rows(out) <==> count > 0 && r in Rows(input) {
      RowsMember(out, r);
      forall q | 0 <= q < count
        ensures r in out[q] <==> Target(engine, exprs, count, r) == q && r in Rows(input)
      {
        RowsToMultiplicity(engine, exprs, count, q, Rows(input), r);
        assert r in out[q] <==> multiset(out[q])[r] > 0;
        assert r in Rows(input) <==> multiset(Rows(input))[r] > 0;
      }
      if count > 0 && r in Rows(input) {
        assert r in out[Target(engine, exprs, count, r)];
      }
    }
  }

  lemma CoalesceKeepsRows(input: Table, out: Table)
    requires Coalesced(input, out)
    ensures SameMembers(input, out)
  {
    forall r ensures r in Rows(input) <==> r in Rows(out) {
      RowsMember(out, r);
      assert r in Rows(input) <==> multiset(Rows(input))[r] > 0;
      assert r in out[0] <==> multiset(out[0])[r] > 0;
    }
  }

  /** As a whole, a query gives only plain tables. */
  lemma {:induction false} ResultsArePlain(cat: Catalog, p: Plan, out: Table)
    requires IsQuery(p) && RepartitionsByHashOnly(p) && Denotes(Deciding(cat), NOTHING_RUN, p, out)
    ensures Plain(out)
  {
    var engine := Deciding(cat);
    var ins :| DenotesAll(engine, NOTHING_RUN, p.children, ins) && Applies(engine, p.op, ins, out);
    forall i | 0 <= i < |ins| ensures Plain(ins[i]) {
      ResultsArePlain(cat, p.children[i], ins[i]);
    }
    PlainStaysPlain(cat, p.op, ins, out);
  }

  lemma PlainStaysPlain(cat: Catalog, op: Operator, ins: seq<Table>, out: Table)
    requires !IsShuffle(op) && (op.Repartition? ==> op.partitioning.Hash?)
    requires AllPlain(ins) && Applies(Deciding(cat), op, ins, out)
    ensures Plain(out)
  {
    if op.CoalescePartitions? {
      CoalesceKeepsRows(ins[0], out);
    } else if op.SortPreservingMerge? {
      assert Coalesced(ins[0], out);
      CoalesceKeepsRows(ins[0], out);
    } else if op.Repartition? {
      HashKeepsRows(Deciding(cat), op.partitioning.exprs, op.partitioning.count, ins[0], out);
    } else {
      forall r ensures r in Rows(out) ==> r == out[0][0] && out[0] in [[ROW_A], [ROW_B]] {
        RowsMember(out, r);
      }
    }
  }

  // ---------- Mixed rows are never lost ----------

  /** One of the referenced stages wrote a table that is not plain, to at least one partition. */
  ghost predicate ReadsMixed(us: seq<Operator>, outputs: map<nat, StageOutput>)
    requires forall u :: u in us ==> u.UnresolvedShuffle?
  {
    exists u :: u in us && u.stageId in outputs && Mixed(outputs[u.stageId])
  }

  predicate Mixed(output: StageOutput) {
    !Plain(output.written) && (output.partitioning.Some? ==> output.partitioning.value.count > 0)
  }

  lemma MixedIsRead(engine: Engine, output: StageOutput, out: Table)
    requires Mixed(output) && ShuffleRead(engine, output.partitioning, output.written, out)
    ensures !Plain(out)
  {
    if output.partitioning.Some? {
      var Hash(exprs, count) := output.partitioning.value;
      HashKeepsRows(engine, exprs, count, output.written, out);
    }
  }

  lemma MixedStaysMixed(cat: Catalog, op: Operator, ins: seq<Table>, out: Table)
    requires (forall op, counts :: cat.partitions(op, counts) > 0)
    requires !IsShuffle(op) && !op.Repartition?
    requires !AllPlain(ins) && Applies(Deciding(cat), op, ins, out)
    ensures !Plain(out)
    ensures op.Other? || op.WindowAgg? ==> out != [] && out == Copies(ROW_C, |out|)
    ensures op.CoalescePartitions? || op.SortPreservingMerge? ==> |out| == 1
  {
    if op.CoalescePartitions? || op.SortPreservingMerge? {
      assert Coalesced(ins[0], out);
      CoalesceKeepsRows(ins[0], out);
    } else {
      CopiesRows(ROW_C, |out|, ROW_C);
    }
  }

  lemma {:induction false} StageStaysMixed(cat: Catalog, outputs: map<nat, StageOutput>, p: Plan, out: Table)
    requires forall op, counts :: cat.partitions(op, counts) > 0
    requires SinglePartitioning(p) && HasNoReader(p) && NoWriter(p)
    requires ReadsMixed(FindUnresolvedShuffles(p), outputs)
    requires Denotes(Deciding(cat), Context(outputs, map[]), p, out)
    ensures !Plain(out)
    ensures p.op.Other? || p.op.WindowAgg? ==> out != [] && out == Copies(ROW_C, |out|)
    ensures p.op.CoalescePartitions? || p.op.SortPreservingMerge? ==> |out| == 1
  {
    var engine, ctx := Deciding(cat), Context(outputs, map[]);
    if p.op.UnresolvedShuffle? {
      MixedIsRead(engine, outputs[p.op.stageId], out);
    } else {
      var ins :| DenotesAll(engine, ctx, p.children, ins) && Applies(engine, p.op, ins, out);
      var u :| u in FindUnresolvedShuffles(p) && u.stageId in outputs && Mixed(outputs[u.stageId]);
      FindUnresolvedIn(p.children, u);
      var i :| 0 <= i < |p.children| && u in FindUnresolvedShuffles(p.children[i]);
      StageStaysMixed(cat, outputs, p.children[i], ins[i]);
      MixedStaysMixed(cat, p.op, ins, out);
    }
  }

  lemma StageResultIsMixed(cat: Catalog, outputs: map<nat, StageOutput>, stage: Plan, out: Table)
    requires forall op, counts :: cat.partitions(op, counts) > 0
    requires Executable(stage) && SinglePartitioning(stage) && HasNoReader(stage)
    requires ReadsMixed(FindUnresolvedShuffles(stage), outputs)
    requires Denotes(Deciding(cat), Context(outputs, map[]), stage, out)
    ensures !Plain(out)
    ensures var op := stage.children[0].op;
            op.UnresolvedShuffle? || |out| == 1 || (out != [] && out == Copies(ROW_C, |out|))
  {
    var child := stage.children[0];
    FindUnresolvedSingle(child);
    assert stage.children == [child];
    var _ := InputOfUnary(Deciding(cat), Context(outputs, map[]), stage, out);
    StageStaysMixed(cat, outputs, child, out);
  }

  lemma ThirdRow(t: Table)
    requires t != [] && t[0] == [ROW_C]
    ensures !Plain(t)
  {
    RowsMember(t, ROW_C);
    assert ROW_C in t[0];
  }

  /** Whatever each of its tasks sees, a stage that reads mixed rows writes a table that is not plain. */
  lemma TasksStayMixed(cat: Catalog, outputs: map<nat, StageOutput>, stage: Plan, written: Table)
    requires forall op, counts :: cat.partitions(op, counts) > 0
    requires Executable(stage) && SinglePartitioning(stage) && HasNoReader(stage)
    requires ReadsMixed(FindUnresolvedShuffles(stage), outputs)
    requires TaskWise(Deciding(cat), Context(outputs, map[]), stage, written)
    ensures !Plain(written)
  {
    var engine, ctx := Deciding(cat), Context(outputs, map[]);
    var some :| Denotes(engine, ctx, stage, some) && |some| == |written|;
    StageResultIsMixed(cat, outputs, stage, some);
    if stage.children[0].op.UnresolvedShuffle? || |written| <= 1 {
      ReadingSplices(engine, stage);
      TaskWiseIsResult(engine, ctx, stage, written);
      StageResultIsMixed(cat, outputs, stage, written);
    } else {
      var out := ResultOfTask(engine, ctx, stage, written, 0);
      StageResultIsMixed(cat, outputs, stage, out);
      ThirdRow(written);
    }
  }

  /** What the planner makes of a query, in all detail. */
  ghost predicate Planned(cat: Catalog, jobId: string, stages: seq<Plan>, from: nat) {
    && Prepared(cat, jobId, stages, from) && AllSinglePartitioning(stages)
    && AllButLastRead(stages, from) && stages != []
  }

  lemma QueryIsPlanned(cat: Catalog, jobId: string, p: Plan, next: nat)
    requires WellFormed(p) && IsQuery(p) && HasNoWindowAgg(p)
    ensures StagesOf(cat, jobId, p, next).Success?
    ensures Planned(cat, jobId, StagesOf(cat, jobId, p, next).value, next)
  {
    StagesAreWellStructured(cat, jobId, p, next);
    QueryIsPrepared(cat, jobId, p, next);
  }

  lemma ReaderIsMixed(cat: Catalog, outputs: map<nat, StageOutput>, stage: Plan, reader: Plan, u: Operator)
    requires forall op, counts :: cat.partitions(op, counts) > 0
    requires Executable(reader) && SinglePartitioning(reader) && HasNoReader(reader)
    requires StageTaskRuns(Deciding(cat), stage, outputs) && StageTaskRuns(Deciding(cat), reader, outputs)
    requires u in FindUnresolvedShuffles(reader) && u.stageId == stage.op.stageId && PositivelyWritten(stage)
    requires !Plain(outputs[stage.op.stageId].written)
    ensures !Plain(outputs[reader.op.stageId].written)
  {
    assert Mixed(outputs[u.stageId]);
    TasksStayMixed(cat, outputs, reader, outputs[reader.op.stageId].written);
  }

  /** Mixed rows written by some stage reach the last one. */
  lemma {:induction false} LastIsMixed(
    cat: Catalog, jobId: string, stages: seq<Plan>, from: nat, outputs: map<nat, StageOutput>, k: nat)
    requires Planned(cat, jobId, stages, from) && Positive(cat, stages)
    requires TaskRuns(Deciding(cat), stages, outputs) && k < |stages|
    requires !Plain(outputs[stages[k].op.stageId].written)
    ensures !Plain(outputs[stages[|stages| - 1].op.stageId].written)
    decreases |stages| - k
  {
    if k < |stages| - 1 {
      var j, u := ReaderOf(cat, jobId, stages, from, k);
      assert StageTaskRuns(Deciding(cat), stages[k], outputs) && StageTaskRuns(Deciding(cat), stages[j], outputs);
      assert Executable(stages[j]) && SinglePartitioning(stages[j]) && HasNoReader(stages[j]);
      assert PositivelyWritten(stages[k]);
      ReaderIsMixed(cat, outputs, stages[k], stages[j], u);
      LastIsMixed(cat, jobId, stages, from, outputs, j);
    }
  }

  // ---------- A stage can mix rows ----------

  /** An operator with two partitions gives them from two results. */
  lemma TasksCanMix(cat: Catalog, p: Plan, files: Files) returns (written: Table)
    requires Runnable(p, files) && NoWriter(p) && (p.op.Other? || p.op.WindowAgg?) && PartitionCount(cat, p) >= 2
    ensures TaskWise(Deciding(cat), Context(map[], files), p, written) && |written| == PartitionCount(cat, p)
    ensures !Plain(written)
  {
    DecidingIsTotal(cat);
    var ins := HaveResults(Deciding(cat), cat, p.children, files);
    assert Counts(ins) == PartitionCounts(cat, p.children);
    written := DecisionsCanMix(cat, Context(map[], files), p, ins);
  }

  lemma DecisionsCanMix(cat: Catalog, ctx: Context, p: Plan, ins: seq<Table>) returns (written: Table)
    requires p.op.Other? || p.op.WindowAgg?
    requires DenotesAll(Deciding(cat), ctx, p.children, ins) && cat.partitions(p.op, Counts(ins)) >= 2
    ensures TaskWise(Deciding(cat), ctx, p, written) && |written| == cat.partitions(p.op, Counts(ins))
    ensures !Plain(written)
  {
    var engine, n := Deciding(cat), cat.partitions(p.op, Counts(ins));
    if AllPlain(ins) {
      var a, b := Copies(ROW_A, n), Copies(ROW_B, n);
      assert Applies(engine, p.op, ins, a) && Applies(engine, p.op, ins, b);
      TwoResults(engine, ctx, p, a, b, 1);
      written := a[1 := b[1]];
      BothRows(written);
    } else {
      written := Copies(ROW_C, n);
      assert Applies(engine, p.op, ins, written);
      ResultIsTaskWise(engine, ctx, p, written);
      CopiesRows(ROW_C, n, ROW_C);
    }
  }

  lemma BothRows(t: Table)
    requires |t| >= 2 && t[0] == [ROW_A] && t[1] == [ROW_B]
    ensures !Plain(t)
  {
    RowsMember(t, ROW_A);
    RowsMember(t, ROW_B);
    assert ROW_A in t[0] && ROW_B in t[1];
  }

  lemma TwoResults(engine: Engine, ctx: Context, p: Plan, a: Table, b: Table, j: nat)
    requires Denotes(engine, ctx, p, a) && Denotes(engine, ctx, p, b) && |a| == |b| && j < |a|
    ensures TaskWise(engine, ctx, p, a[j := b[j]])
  {
    var c := a[j := b[j]];
    forall t | 0 <= t < |c| ensures TaskResult(engine, ctx, p, |c|, t, c[t]) {
      if t == j {
        assert b[t] == c[t];
      } else {
        assert a[t] == c[t];
      }
    }
  }

  lemma RootOfStage(cat: Catalog, stage: Plan)
    requires Executable(stage) && NoRepartition(stage) && HasNoReader(stage) && !Simple(cat, stage)
    ensures var p := stage.children[0]; (p.op.Other? || p.op.WindowAgg?) && PartitionCount(cat, p) >= 2
  {}

  lemma StageCanMix(
    cat: Catalog, jobId: string, stages: seq<Plan>, from: nat, n: nat, before: seq<StageRun>)
    returns (written: Table)
    requires Planned(cat, jobId, stages, from) && n < |stages| && !Simple(cat, stages[n])
    requires Executes(Deciding(cat), cat, jobId, stages, before) && StagesRun(before) == stages[..n]
    ensures MayWrite(Deciding(cat), cat, After(before), stages[n], written) && !Plain(written)
  {
    var engine, s, stage := Deciding(cat), After(before), stages[n];
    ExecutionIsConsistent(engine, cat, jobId, stages, from, before);
    InputCanBeRun(engine, cat, jobId, stages[..n], s, stage);
    ResolvedChildKeepsCount(cat, stage.children[0], s.locations);
    RootOfStage(cat, stage);
    written := TasksCanMix(cat, ResolveChild(stage.children[0], s.locations).value, s.files);
    InputMayBeWritten(engine, cat, s, stage, written);
  }

  predicate MixedAt(runs: seq<StageRun>, k: nat) {
    k < |runs| && !Plain(runs[k].written)
  }

  /** The first n stages have run; if stage k is among them, it has mixed rows. */
  ghost predicate HaveMixed(
    cat: Catalog, jobId: string, stages: seq<Plan>, k: nat, n: nat, runs: seq<StageRun>)
  {
    && n <= |stages| && Executes(Deciding(cat), cat, jobId, stages, runs) && StagesRun(runs) == stages[..n]
    && (n > k ==> MixedAt(runs, k))
  }

  lemma NothingMixed(cat: Catalog, jobId: string, stages: seq<Plan>, k: nat)
    ensures HaveMixed(cat, jobId, stages, k, 0, [])
  {}

  /** The next stage runs; if it is number k, it mixes rows. */
  lemma NextCanMix(
    cat: Catalog, jobId: string, stages: seq<Plan>, from: nat, k: nat, n: nat, before: seq<StageRun>)
    returns (runs: seq<StageRun>)
    requires Planned(cat, jobId, stages, from) && k < |stages| && !Simple(cat, stages[k])
    requires HaveMixed(cat, jobId, stages, k, n, before) && n < |stages|
    ensures HaveMixed(cat, jobId, stages, k, n + 1, runs)
  {
    var engine, written := Deciding(cat), [];
    if n == k {
      written := StageCanMix(cat, jobId, stages, from, n, before);
    } else {
      DecidingIsTotal(cat);
      written := NextMayWrite(engine, cat, jobId, stages, from, n, before);
    }
    var run := NextCanRun(engine, cat, jobId, stages, from, n, before, written);
    runs := before + [run];
    assert |before| == |StagesRun(before)| == n;
  }

  lemma StagesCanMix(cat: Catalog, jobId: string, stages: seq<Plan>, from: nat, k: nat)
    returns (runs: seq<StageRun>)
    requires Planned(cat, jobId, stages, from) && k < |stages| && !Simple(cat, stages[k])
    ensures HaveMixed(cat, jobId, stages, k, |stages|, runs)
  {
    runs := [];
    NothingMixed(cat, jobId, stages, k);
    for n := 0 to |stages|
      invariant HaveMixed(cat, jobId, stages, k, n, runs)
    {
      runs := NextCanMix(cat, jobId, stages, from, k, n, runs);
    }
  }

  lemma EndsMixed(cat: Catalog, jobId: string, stages: seq<Plan>, from: nat, runs: seq<StageRun>, k: nat)
    requires Planned(cat, jobId, stages, from) && Positive(cat, stages)
    requires Finishes(Deciding(cat), cat, jobId, stages, runs, |stages| - 1)
    requires MixedAt(runs, k) && k < |stages| && runs[k].stage == stages[k]
    ensures MixedAt(runs, |stages| - 1)
  {
    LastStageEnds(Deciding(cat), cat, jobId, stages, from, runs, |stages| - 1);
    LastOutput(Deciding(cat), cat, jobId, stages, from, runs, k);
    LastIsMixed(cat, jobId, stages, from, After(runs).outputs, k);
  }

  /** If a stage with two tasks or more is more than a reference, an execution ends with mixed rows. */
  lemma ClusterCanMix(cat: Catalog, jobId: string, stages: seq<Plan>, from: nat, k: nat)
    returns (runs: seq<StageRun>, i: nat)
    requires Planned(cat, jobId, stages, from) && Positive(cat, stages)
    requires k < |stages| && !Simple(cat, stages[k])
    ensures Finishes(Deciding(cat), cat, jobId, stages, runs, i) && !Plain(runs[i].written)
  {
    runs := StagesCanMix(cat, jobId, stages, from, k);
    i := |stages| - 1;
    assert stages[..|stages|] == stages;
    AllRunFinishes(Deciding(cat), cat, jobId, stages, runs);
    EndsMixed(cat, jobId, stages, from, runs, k);
  }

  // ---------- The theorem ----------

  /** With this engine, what the stages end with is always a result of the query. */
  ghost predicate Computes(engine: Engine, cat: Catalog, jobId: string, stages: seq<Plan>, p: Plan) {
    forall runs: seq<StageRun>, i: nat :: Finishes(engine, cat, jobId, stages, runs, i) ==>
      Denotes(engine, NOTHING_RUN, p, runs[i].written)
  }

  /**
   The cluster computes a query for every engine if and only if each stage with two tasks or more does
   nothing but read the output of another.
   */
  lemma ClusterComputesTheQueryIff(cat: Catalog, jobId: string, p: Plan, next: nat)
    requires WellFormed(p) && IsQuery(p) && HasNoWindowAgg(p)
    requires StagesOf(cat, jobId, p, next).Success? ==> Positive(cat, StagesOf(cat, jobId, p, next).value)
    ensures StagesOf(cat, jobId, p, next).Success?
    ensures (forall engine :: Computes(engine, cat, jobId, StagesOf(cat, jobId, p, next).value, Stripped(p)))
            <==> AllSimple(cat, StagesOf(cat, jobId, p, next).value)
  {
    QueryIsPlanned(cat, jobId, p, next);
    var stages := StagesOf(cat, jobId, p, next).value;
    if AllSimple(cat, stages) {
      forall engine ensures Computes(engine, cat, jobId, stages, Stripped(p)) {
        SimpleIsCoherent(engine, cat, stages);
        forall runs: seq<StageRun>, i: nat | Finishes(engine, cat, jobId, stages, runs, i)
          ensures Denotes(engine, NOTHING_RUN, Stripped(p), runs[i].written)
        {
          ClusterComputesTheQuery(engine, cat, jobId, p, next, runs, i);
        }
      }
    } else {
      var k :| 0 <= k < |stages| && !Simple(cat, stages[k]);
      var runs, i := ClusterCanMix(cat, jobId, stages, next, k);
      StrippedIsQuery(p);
      StrippedRepartitionsByHashOnly(p);
      if Denotes(Deciding(cat), NOTHING_RUN, Stripped(p), runs[i].written) {
        ResultsArePlain(cat, Stripped(p), runs[i].written);
      }
      assert !Computes(Deciding(cat), cat, jobId, stages, Stripped(p));
    }
  }
}
