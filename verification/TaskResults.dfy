/**
 What a stage writes when every task evaluates the plan of the stage on its own.

 Two tasks may fetch the same files in different orders, so the partitions of what a stage writes may
 come from different results of its plan. `TaskWise` describes the tables that can come about, and
 the lemmas say when such a table is a result of the plan.
 */
module TaskResults {
  import opened Wrappers
  import opened Plans
  import opened Semantics
  import opened StageCorrectness

  // ---------- Task by task ----------

  /** The rows are partition t of some result of the plan with n partitions. */
  ghost predicate TaskResult(engine: Engine, ctx: Context, p: Plan, n: nat, t: nat, rows: seq<Row>) {
    exists out :: Denotes(engine, ctx, p, out) && |out| == n && t < n && out[t] == rows
  }

  /** The plan has a result with n partitions. */
  ghost predicate HasWidth(engine: Engine, ctx: Context, p: Plan, n: nat) {
    exists out :: Denotes(engine, ctx, p, out) && |out| == n
  }

  /** Each task writes its partition of some result of the plan; there are as many tasks as partitions. */
  ghost predicate TaskWise(engine: Engine, ctx: Context, p: Plan, written: Table) {
    && HasWidth(engine, ctx, p, |written|)
    && forall t :: 0 <= t < |written| ==> TaskResult(engine, ctx, p, |written|, t, written[t])
  }

  lemma ResultIsTaskWise(engine: Engine, ctx: Context, p: Plan, out: Table)
    requires Denotes(engine, ctx, p, out)
    ensures TaskWise(engine, ctx, p, out)
  {}

  /** The stages have run, task by task, each reading what others wrote. */
  ghost predicate TaskRuns(engine: Engine, stages: seq<Plan>, outputs: map<nat, StageOutput>) {
    forall i :: 0 <= i < |stages| ==> StageTaskRuns(engine, stages[i], outputs)
  }

  ghost predicate StageTaskRuns(engine: Engine, stage: Plan, outputs: map<nat, StageOutput>) {
    && stage.op.ShuffleWriter?
    && stage.op.stageId in outputs
    && outputs[stage.op.stageId].partitioning == stage.op.shuffleOutputPartitioning
    && TaskWise(engine, Context(outputs, map[]), stage, outputs[stage.op.stageId].written)
  }

  /** The stages have run task by task and the last of them wrote out. */
  ghost predicate TasksEndWith(engine: Engine, stages: seq<Plan>, outputs: map<nat, StageOutput>, out: Table) {
    && stages != []
    && TaskRuns(engine, stages, outputs)
    && outputs[stages[|stages| - 1].op.stageId].written == out
  }

  lemma TaskWiseExtends(
    engine: Engine, small: map<nat, StageOutput>, large: map<nat, StageOutput>, p: Plan, written: Table)
    requires Extends(small, large) && TaskWise(engine, Context(small, map[]), p, written)
    ensures TaskWise(engine, Context(large, map[]), p, written)
  {
    var from, to, n := Context(small, map[]), Context(large, map[]), |written|;
    var some :| Denotes(engine, from, p, some) && |some| == n;
    DenotesExtends(engine, small, large, p, some);
    forall t | 0 <= t < n ensures TaskResult(engine, to, p, n, t, written[t]) {
      assert TaskResult(engine, from, p, n, t, written[t]);
      var out :| Denotes(engine, from, p, out) && |out| == n && out[t] == written[t];
      DenotesExtends(engine, small, large, p, out);
    }
  }

  /** A stage joins those that have run. */
  lemma AddTaskRun(
    engine: Engine, stages: seq<Plan>, outputs: map<nat, StageOutput>, writer: Plan, written: Table)
    requires TaskRuns(engine, stages, outputs)
    requires writer.op.ShuffleWriter? && writer.op.stageId !in outputs
    requires TaskWise(engine, Context(outputs, map[]), writer, written)
    ensures TaskRuns(engine, stages + [writer],
                     outputs[writer.op.stageId := StageOutput(writer.op.shuffleOutputPartitioning, written)])
  {
    var outputs' := outputs[writer.op.stageId := StageOutput(writer.op.shuffleOutputPartitioning, written)];
    TaskWiseExtends(engine, outputs, outputs', writer, written);
    forall i | 0 <= i < |stages| ensures StageTaskRuns(engine, stages[i], outputs') {
      assert StageTaskRuns(engine, stages[i], outputs);
      TaskWiseExtends(engine, outputs, outputs', stages[i], outputs[stages[i].op.stageId].written);
    }
  }

  // ---------- When the partitions fit together ----------

  /** Each partition of c is that of a or that of b. */
  predicate Partwise(a: Table, b: Table, c: Table) {
    |a| == |b| == |c| && forall k :: 0 <= k < |c| ==> c[k] == a[k] || c[k] == b[k]
  }

  /** One of the two tables, or one put together from their partitions. */
  predicate Mixture(a: Table, b: Table, c: Table) {
    c == a || c == b || Partwise(a, b, c)
  }

  predicate AllMixtures(ins: seq<Table>, ins': seq<Table>, mixed: seq<Table>) {
    |ins| == |ins'| == |mixed| && forall i :: 0 <= i < |ins| ==> Mixture(ins[i], ins'[i], mixed[i])
  }

  ghost predicate OperatesOnMixture(
    engine: Engine, op: Operator, ins: seq<Table>, ins': seq<Table>, out: Table)
  {
    exists mixed :: AllMixtures(ins, ins', mixed) && engine.operate(op, mixed, out)
  }

  /** Exchanging partition j of one result for that of another amounts to exchanging partitions of the inputs. */
  ghost predicate MixesAt(
    engine: Engine, op: Operator, ins: seq<Table>, ins': seq<Table>, out: Table, out': Table, j: nat)
  {
    && engine.operate(op, ins, out) && engine.operate(op, ins', out')
    && |ins| == |ins'| && |out| == |out'| && j < |out|
    ==> OperatesOnMixture(engine, op, ins, ins', out[j := out'[j]])
  }

  /** The operator computes different partitions from different partitions of its inputs. */
  ghost predicate PartitionLocal(engine: Engine, op: Operator) {
    forall ins, ins', out, out', j: nat :: MixesAt(engine, op, ins, ins', out, out', j)
  }

  /** Partitions of different results of the plan fit together. */
  ghost predicate Splices(engine: Engine, p: Plan) {
    || p.op.UnresolvedShuffle? || p.op.ShuffleReader? || p.op.CoalescePartitions? || p.op.SortPreservingMerge?
    || (&& !p.op.Repartition?
        && (p.op.ShuffleWriter? || PartitionLocal(engine, p.op))
        && forall i :: 0 <= i < |p.children| ==> Splices(engine, p.children[i]))
  }

  lemma SplicedReference(engine: Engine, ctx: Context, p: Plan, a: Table, b: Table, j: nat)
    requires p.op.UnresolvedShuffle?
    requires Denotes(engine, ctx, p, a) && Denotes(engine, ctx, p, b) && |a| == |b| && j < |a|
    ensures Denotes(engine, ctx, p, a[j := b[j]])
  {
    var output := ctx.stages[p.op.stageId];
    if output.partitioning.None? {
      assert a[j := b[j]] == a;
    }
  }

  lemma SplicedReader(engine: Engine, ctx: Context, p: Plan, a: Table, b: Table, j: nat)
    requires p.op.ShuffleReader?
    requires Denotes(engine, ctx, p, a) && Denotes(engine, ctx, p, b) && |a| == |b| && j < |a|
    ensures Denotes(engine, ctx, p, a[j := b[j]])
  {}

  /** One partition of a result may come from another result. */
  lemma {:induction false} Spliced(engine: Engine, ctx: Context, p: Plan, a: Table, b: Table, j: nat)
    requires Splices(engine, p)
    requires Denotes(engine, ctx, p, a) && Denotes(engine, ctx, p, b) && |a| == |b| && j < |a|
    ensures Denotes(engine, ctx, p, a[j := b[j]])
    decreases p, 1
  {
    var c := a[j := b[j]];
    if p.op.UnresolvedShuffle? {
      SplicedReference(engine, ctx, p, a, b, j);
    } else if p.op.ShuffleReader? {
      SplicedReader(engine, ctx, p, a, b, j);
    } else if p.op.CoalescePartitions? || p.op.SortPreservingMerge? {
      assert c == b;
    } else {
      SplicedNode(engine, ctx, p, a, b, j);
    }
  }

  lemma {:induction false} SplicedNode(engine: Engine, ctx: Context, p: Plan, a: Table, b: Table, j: nat)
    requires p.op.Other? || p.op.WindowAgg? || p.op.ShuffleWriter?
    requires Splices(engine, p)
    requires Denotes(engine, ctx, p, a) && Denotes(engine, ctx, p, b) && |a| == |b| && j < |a|
    ensures Denotes(engine, ctx, p, a[j := b[j]])
    decreases p, 0
  {
    var c := a[j := b[j]];
    var ins :| DenotesAll(engine, ctx, p.children, ins) && Applies(engine, p.op, ins, a);
    var ins' :| DenotesAll(engine, ctx, p.children, ins') && Applies(engine, p.op, ins', b);
    if p.op.ShuffleWriter? {
      Spliced(engine, ctx, p.children[0], a, b, j);
      DenotesUnary(engine, ctx, p, c, c);
    } else {
      var mixed := MixedInputs(engine, p.op, ins, ins', a, b, j);
      forall i | 0 <= i < |mixed| ensures Denotes(engine, ctx, p.children[i], mixed[i]) {
        MixtureIsResult(engine, ctx, p.children[i], ins[i], ins'[i], mixed[i]);
      }
      assert DenotesAll(engine, ctx, p.children, mixed);
    }
  }

  lemma MixedInputs(
    engine: Engine, op: Operator, ins: seq<Table>, ins': seq<Table>, a: Table, b: Table, j: nat)
    returns (mixed: seq<Table>)
    requires PartitionLocal(engine, op) && engine.operate(op, ins, a) && engine.operate(op, ins', b)
    requires |ins| == |ins'| && |a| == |b| && j < |a|
    ensures AllMixtures(ins, ins', mixed) && engine.operate(op, mixed, a[j := b[j]])
  {
    assert MixesAt(engine, op, ins, ins', a, b, j);
    mixed :| AllMixtures(ins, ins', mixed) && engine.operate(op, mixed, a[j := b[j]]);
  }

  /** The first k partitions are exchanged. */
  function FirstFrom(a: Table, c: Table, k: nat): Table
    requires |a| == |c| && k <= |c|
  {
    c[..k] + a[k..]
  }

  lemma OnePartitionMore(a: Table, b: Table, c: Table, k: nat)
    requires |a| == |b| == |c| && k < |c| && (c[k] == a[k] || c[k] == b[k])
    ensures FirstFrom(a, c, k + 1) == if c[k] == a[k] then FirstFrom(a, c, k) else FirstFrom(a, c, k)[k := b[k]]
  {}

  lemma {:induction false} MixtureIsResult(engine: Engine, ctx: Context, p: Plan, a: Table, b: Table, c: Table)
    requires Splices(engine, p) && Mixture(a, b, c)
    requires Denotes(engine, ctx, p, a) && Denotes(engine, ctx, p, b)
    ensures Denotes(engine, ctx, p, c)
    decreases p, 3
  {
    if c != a && c != b {
      PrefixIsResult(engine, ctx, p, a, b, c, |c|);
      assert FirstFrom(a, c, |c|) == c;
    }
  }

  lemma {:induction false} PrefixIsResult(
    engine: Engine, ctx: Context, p: Plan, a: Table, b: Table, c: Table, k: nat)
    requires Splices(engine, p) && Partwise(a, b, c) && k <= |c|
    requires Denotes(engine, ctx, p, a) && Denotes(engine, ctx, p, b)
    ensures Denotes(engine, ctx, p, FirstFrom(a, c, k))
    decreases p, 2, k
  {
    if k == 0 {
      assert FirstFrom(a, c, 0) == a;
    } else {
      var table := FirstFrom(a, c, k - 1);
      PrefixIsResult(engine, ctx, p, a, b, c, k - 1);
      OnePartitionMore(a, b, c, k - 1);
      if FirstFrom(a, c, k) != table {
        Spliced(engine, ctx, p, table, b, k - 1);
      }
    }
  }

  lemma ResultOfTask(engine: Engine, ctx: Context, p: Plan, written: Table, t: nat) returns (out: Table)
    requires TaskWise(engine, ctx, p, written) && t < |written|
    ensures Denotes(engine, ctx, p, out) && |out| == |written| && out[t] == written[t]
  {
    assert TaskResult(engine, ctx, p, |written|, t, written[t]);
    out :| Denotes(engine, ctx, p, out) && |out| == |written| && out[t] == written[t];
  }

  /** What tasks write one by one is a result, if the plan splices or there is at most one task. */
  lemma TaskWiseIsResult(engine: Engine, ctx: Context, p: Plan, written: Table)
    requires Splices(engine, p) || |written| <= 1
    requires TaskWise(engine, ctx, p, written)
    ensures Denotes(engine, ctx, p, written)
  {
    if |written| == 1 {
      var out := ResultOfTask(engine, ctx, p, written, 0);
      assert out == written;
    } else {
      var table :| Denotes(engine, ctx, p, table) && |table| == |written|;
      for k := 0 to |written|
        invariant |table| == |written| && Denotes(engine, ctx, p, table)
        invariant forall j :: 0 <= j < k ==> table[j] == written[j]
      {
        var out := ResultOfTask(engine, ctx, p, written, k);
        Spliced(engine, ctx, p, table, out, k);
        table := table[k := out[k]];
      }
      assert table == written;
    }
  }

  /** A stage whose tasks together give a result of its plan. */
  ghost predicate Coherent(engine: Engine, cat: Catalog, stage: Plan) {
    Splices(engine, stage) || (|stage.children| == 1 && PartitionCount(cat, stage.children[0]) <= 1)
  }
}
