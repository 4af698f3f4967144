/**
 What plans compute, and that cutting a plan into stages does not change it.

 A plan denotes the tables it may produce. Operators are relations between tables, so nothing is
 assumed about the order of rows unless an operator fixes it. `Denotes` gives a plan its meaning in one
 process; `Runs` describes the execution of a list of stages, each evaluated as a whole and reading what
 earlier ones wrote. What becomes of it when every task evaluates its stage anew, so that a limit may
 see different rows in different tasks, is the subject of `TaskResults` and `TaskIndependence`.
 */
module Semantics {
  import opened Wrappers
  import opened Plans
  import opened Planner

  /** The rows of each partition, in the order in which they are produced. */
  type Table = seq<seq<Row>>

  /** The meaning of what Ballista leaves to DataFusion. */
  datatype Engine = Engine(
    operate: (Operator, seq<Table>, Table) -> bool,
    merge: (string, Table, seq<Row>) -> bool,
    hash: (string, Row) -> nat)

  /** All rows of a table, partition after partition. */
  function Rows(t: Table): seq<Row> {
    if t == [] then [] else Rows(t[..|t| - 1]) + t[|t| - 1]
  }

  /** The partition a row hashes to; with no partitions at all, a number that is none of them. */
  function Target(engine: Engine, exprs: string, count: nat, row: Row): nat {
    if count == 0 then 0 else engine.hash(exprs, row) % count
  }

  /** The rows that hash to partition q, in order. */
  function RowsTo(engine: Engine, exprs: string, count: nat, q: nat, rows: seq<Row>): seq<Row>
  {
    if rows == [] then []
    else
      var init, last := RowsTo(engine, exprs, count, q, rows[..|rows| - 1]), rows[|rows| - 1];
      if Target(engine, exprs, count, last) == q then init + [last] else init
  }

  /** out holds the rows of input, each in the partition its hash says, in any order. */
  ghost predicate HashPartitioned(engine: Engine, exprs: string, count: nat, input: Table, out: Table) {
    && |out| == count
    && forall q :: 0 <= q < count ==> multiset(out[q]) == multiset(RowsTo(engine, exprs, count, q, Rows(input)))
  }

  ghost predicate Coalesced(input: Table, out: Table) {
    |out| == 1 && multiset(out[0]) == multiset(Rows(input))
  }

  /** Rows are dealt out to `count` partitions in some way. */
  ghost predicate Redistributed(count: nat, input: Table, out: Table) {
    |out| == count && multiset(Rows(out)) == multiset(Rows(input))
  }

  /** What may be read from a stage that computed `written` and wrote it with the given partitioning. */
  ghost predicate ShuffleRead(engine: Engine, partitioning: Option<Partitioning>, written: Table, read: Table) {
    match partitioning
    case None => read == written
    case Some(Hash(exprs, count)) => HashPartitioned(engine, exprs, count, written, read)
    case Some(_) => false
  }

  datatype StageOutput = StageOutput(partitioning: Option<Partitioning>, written: Table)

  /** The outputs of the stages that have run, and the shuffle files on disk. */
  datatype Context = Context(stages: map<nat, StageOutput>, files: map<string, seq<Row>>)

  const NOTHING_RUN: Context := Context(map[], map[])

  /** The rows of the files at the given locations, one file after the other. */
  function Fetched(files: map<string, seq<Row>>, locations: seq<PartitionLocation>): seq<Row>
    requires forall l :: l in locations ==> l.path in files
  {
    if locations == [] then []
    else Fetched(files, locations[..|locations| - 1]) + files[locations[|locations| - 1].path]
  }

  /** The reader fetches the files of a partition in an order it does not choose. */
  ghost predicate FetchedInSomeOrder(files: map<string, seq<Row>>, locations: seq<PartitionLocation>, rows: seq<Row>) {
    && (forall l :: l in locations ==> l.path in files)
    && exists order: seq<PartitionLocation> ::
         && multiset(order) == multiset(locations)
         && (forall l :: l in order ==> l.path in files)
         && rows == Fetched(files, order)
  }

  /** p may produce the table out. */
  ghost predicate Denotes(engine: Engine, ctx: Context, p: Plan, out: Table)
    decreases p, 1
  {
    match p.op
    case UnresolvedShuffle(id, _, _) =>
      && id in ctx.stages
      && ShuffleRead(engine, ctx.stages[id].partitioning, ctx.stages[id].written, out)
    case ShuffleReader(_, _, partition) =>
      && |out| == |partition|
      && forall q :: 0 <= q < |partition| ==> FetchedInSomeOrder(ctx.files, partition[q], out[q])
    case _ =>
      exists ins: seq<Table> :: DenotesAll(engine, ctx, p.children, ins) && Applies(engine, p.op, ins, out)
  }

  ghost predicate DenotesAll(engine: Engine, ctx: Context, ps: seq<Plan>, outs: seq<Table>)
    decreases ps, 0
  {
    |outs| == |ps| && forall i :: 0 <= i < |ps| ==> Denotes(engine, ctx, ps[i], outs[i])
  }

  /** op may turn the tables ins into out. */
  ghost predicate Applies(engine: Engine, op: Operator, ins: seq<Table>, out: Table) {
    match op
    case CoalescePartitions => |ins| == 1 && Coalesced(ins[0], out)
    case SortPreservingMerge(ordering) => |ins| == 1 && |out| == 1 && engine.merge(ordering, ins[0], out[0])
    case Repartition(Hash(exprs, count)) => |ins| == 1 && HashPartitioned(engine, exprs, count, ins[0], out)
    case Repartition(partitioning) => |ins| == 1 && Redistributed(partitioning.count, ins[0], out)
    case ShuffleWriter(_, _, _) => |ins| == 1 && out == ins[0]
    case _ => engine.operate(op, ins, out)
  }

  /** Every stage has run: what it computed follows from its plan and the outputs of the stages. */
  ghost predicate Runs(engine: Engine, stages: seq<Plan>, outputs: map<nat, StageOutput>) {
    forall i :: 0 <= i < |stages| ==> StageRuns(engine, stages[i], outputs)
  }

  ghost predicate StageRuns(engine: Engine, stage: Plan, outputs: map<nat, StageOutput>) {
    && stage.op.ShuffleWriter?
    && stage.op.stageId in outputs
    && outputs[stage.op.stageId].partitioning == stage.op.shuffleOutputPartitioning
    && Denotes(engine, Context(outputs, map[]), stage, outputs[stage.op.stageId].written)
  }

  // ---------- Non-hash repartitions ----------

  /** The plan without the repartitions that the planner drops. */
  function Stripped(p: Plan): Plan {
    if p.op.Repartition? && !p.op.partitioning.Hash? && p.children != []
    then Stripped(p.children[0])
    else Plan(p.op, StrippedAll(p.children))
  }

  function StrippedAll(ps: seq<Plan>): (qs: seq<Plan>)
    ensures |qs| == |ps|
    ensures forall i :: 0 <= i < |ps| ==> qs[i] == Stripped(ps[i])
  {
    if ps == [] then [] else StrippedAll(ps[..|ps| - 1]) + [Stripped(ps[|ps| - 1])]
  }

  predicate RepartitionsByHashOnly(p: Plan) {
    && (p.op.Repartition? ==> p.op.partitioning.Hash?)
    && forall i :: 0 <= i < |p.children| ==> RepartitionsByHashOnly(p.children[i])
  }

  lemma {:induction false} StrippedRepartitionsByHashOnly(p: Plan)
    requires WellFormed(p)
    ensures RepartitionsByHashOnly(Stripped(p))
  {
    forall i | 0 <= i < |p.children| ensures RepartitionsByHashOnly(Stripped(p.children[i])) {
      StrippedRepartitionsByHashOnly(p.children[i]);
    }
  }

  lemma {:induction false} StrippedIsQuery(p: Plan)
    requires IsQuery(p)
    ensures IsQuery(Stripped(p))
  {
    forall i | 0 <= i < |p.children| ensures IsQuery(Stripped(p.children[i])) {
      StrippedIsQuery(p.children[i]);
    }
  }

  /** The planner drops nothing exactly from the plans that only repartition by hash. */
  lemma {:induction false} StrippedIsIdentityIff(p: Plan)
    requires WellFormed(p)
    ensures Stripped(p) == p <==> RepartitionsByHashOnly(p)
  {
    StrippedRepartitionsByHashOnly(p);
    if RepartitionsByHashOnly(p) {
      forall i | 0 <= i < |p.children| ensures Stripped(p.children[i]) == p.children[i] {
        StrippedIsIdentityIff(p.children[i]);
      }
      assert StrippedAll(p.children) == p.children;
    }
  }

  // ---------- More outputs, same readings ----------

  predicate Extends(small: map<nat, StageOutput>, large: map<nat, StageOutput>) {
    forall id :: id in small ==> id in large && large[id] == small[id]
  }

  lemma {:induction false} DenotesExtends(
    engine: Engine, small: map<nat, StageOutput>, large: map<nat, StageOutput>, p: Plan, out: Table)
    requires Extends(small, large)
    requires Denotes(engine, Context(small, map[]), p, out)
    ensures Denotes(engine, Context(large, map[]), p, out)
  {
    if !p.op.UnresolvedShuffle? && !p.op.ShuffleReader? {
      var ins :| DenotesAll(engine, Context(small, map[]), p.children, ins) && Applies(engine, p.op, ins, out);
      forall i | 0 <= i < |p.children| ensures Denotes(engine, Context(large, map[]), p.children[i], ins[i]) {
        DenotesExtends(engine, small, large, p.children[i], ins[i]);
      }
      assert DenotesAll(engine, Context(large, map[]), p.children, ins);
    }
  }

  lemma RunsExtends(engine: Engine, small: map<nat, StageOutput>, large: map<nat, StageOutput>, stages: seq<Plan>)
    requires Extends(small, large)
    requires Runs(engine, stages, small)
    ensures Runs(engine, stages, large)
  {
    forall i | 0 <= i < |stages| ensures StageRuns(engine, stages[i], large) {
      DenotesExtends(engine, small, large, stages[i], small[stages[i].op.stageId].written);
    }
  }

  // ---------- Every result of the stages is a result of the plan ----------

  /** The meaning of a node with one input. */
  lemma DenotesUnary(engine: Engine, ctx: Context, p: Plan, input: Table, out: Table)
    requires |p.children| == 1 && !p.op.UnresolvedShuffle? && !p.op.ShuffleReader?
    requires Denotes(engine, ctx, p.children[0], input) && Applies(engine, p.op, [input], out)
    ensures Denotes(engine, ctx, p, out)
  {
    assert DenotesAll(engine, ctx, p.children, [input]);
  }

  /** ... and back. */
  lemma InputOfUnary(engine: Engine, ctx: Context, p: Plan, out: Table) returns (input: Table)
    requires |p.children| == 1 && !p.op.UnresolvedShuffle? && !p.op.ShuffleReader?
    requires Denotes(engine, ctx, p, out)
    ensures Denotes(engine, ctx, p.children[0], input) && Applies(engine, p.op, [input], out)
  {
    var ins :| DenotesAll(engine, ctx, p.children, ins) && Applies(engine, p.op, ins, out);
    input := ins[0];
    assert ins == [input];
  }

  lemma RunsConcat(engine: Engine, a: seq<Plan>, b: seq<Plan>, outputs: map<nat, StageOutput>)
    ensures Runs(engine, a + b, outputs) <==> Runs(engine, a, outputs) && Runs(engine, b, outputs)
  {
    assert forall i :: 0 <= i < |a| ==> (a + b)[i] == a[i];
    assert forall i :: 0 <= i < |b| ==> (a + b)[|a| + i] == b[i];
  }

  lemma DenotesAllSnoc(engine: Engine, ctx: Context, ps: seq<Plan>, p: Plan, outs: seq<Table>)
    requires |outs| == |ps| + 1
    ensures DenotesAll(engine, ctx, ps + [p], outs) <==>
              DenotesAll(engine, ctx, ps, outs[..|ps|]) && Denotes(engine, ctx, p, outs[|ps|])
  {
    assert forall i :: 0 <= i < |ps| ==> (ps + [p])[i] == ps[i] && outs[..|ps|][i] == outs[i];
    assert (ps + [p])[|ps|] == p;
  }

  /** The exchange and the stage below it make of the input what the exchange makes of it. */
  lemma ExchangeIsSound(
    engine: Engine, cat: Catalog, jobId: string, op: Operator, children: seq<Plan>, stages: seq<Plan>, next: nat,
    outputs: map<nat, StageOutput>, out: Table)
    returns (written: Table)
    requires IsExchange(op) && |children| == 1
    requires Runs(engine, CutRoot(cat, jobId, op, children, stages, next).stages, outputs)
    requires Denotes(engine, Context(outputs, map[]), CutRoot(cat, jobId, op, children, stages, next).plan, out)
    ensures Denotes(engine, Context(outputs, map[]), children[0], written) && Applies(engine, op, [written], out)
  {
    var ctx, q := Context(outputs, map[]), CutRoot(cat, jobId, op, children, stages, next).plan;
    var allStages := CutRoot(cat, jobId, op, children, stages, next).stages;
    var writer := allStages[|stages|];
    assert StageRuns(engine, writer, outputs);
    written := outputs[writer.op.stageId].written;
    var input := InputOfUnary(engine, ctx, writer, written);
    if !op.Repartition? {
      var read := InputOfUnary(engine, ctx, q, out);
    }
  }

  lemma LeafIsSound(engine: Engine, outputs: map<nat, StageOutput>, p: Plan, out: Table)
    requires IsQuery(p) && p.children == [] && Denotes(engine, Context(outputs, map[]), p, out)
    ensures Denotes(engine, NOTHING_RUN, Stripped(p), out)
  {
    var ins :| DenotesAll(engine, Context(outputs, map[]), p.children, ins) && Applies(engine, p.op, ins, out);
    assert DenotesAll(engine, NOTHING_RUN, [], ins);
  }

  lemma {:induction false} CutIsSound(
    engine: Engine, cat: Catalog, jobId: string, p: Plan, next: nat, outputs: map<nat, StageOutput>, out: Table)
    requires WellFormed(p) && IsQuery(p)
    requires CutPlan(cat, jobId, p, next).Cut?
    requires Runs(engine, CutPlan(cat, jobId, p, next).stages, outputs)
    requires Denotes(engine, Context(outputs, map[]), CutPlan(cat, jobId, p, next).plan, out)
    ensures Denotes(engine, NOTHING_RUN, Stripped(p), out)
    decreases p, 1
  {
    var ctx := Context(outputs, map[]);
    var Cut(q, allStages, _) := CutPlan(cat, jobId, p, next);
    if p.children == [] {
      LeafIsSound(engine, outputs, p, out);
    } else {
      var CutAll(children, stages, n) := CutChildren(cat, jobId, p.children, next);
      RunsConcat(engine, stages, allStages[|stages|..], outputs);
      assert stages + allStages[|stages|..] == allStages;
      if IsExchange(p.op) {
        var written := ExchangeIsSound(engine, cat, jobId, p.op, children, stages, n, outputs, out);
        CutChildrenIsSound(engine, cat, jobId, p.children, next, outputs, [written]);
        DenotesUnary(engine, NOTHING_RUN, Stripped(p), written, out);
      } else if p.op.Repartition? {
        CutChildrenIsSound(engine, cat, jobId, p.children, next, outputs, [out]);
      } else {
        var ins :| DenotesAll(engine, ctx, q.children, ins) && Applies(engine, p.op, ins, out);
        CutChildrenIsSound(engine, cat, jobId, p.children, next, outputs, ins);
      }
    }
  }

  lemma {:induction false} CutChildrenIsSound(
    engine: Engine, cat: Catalog, jobId: string, ps: seq<Plan>, next: nat, outputs: map<nat, StageOutput>,
    outs: seq<Table>)
    requires forall i :: 0 <= i < |ps| ==> WellFormed(ps[i]) && IsQuery(ps[i])
    requires CutChildren(cat, jobId, ps, next).CutAll?
    requires Runs(engine, CutChildren(cat, jobId, ps, next).stages, outputs)
    requires DenotesAll(engine, Context(outputs, map[]), CutChildren(cat, jobId, ps, next).plans, outs)
    ensures DenotesAll(engine, NOTHING_RUN, StrippedAll(ps), outs)
    decreases ps, 0
  {
    if ps != [] {
      var init, last := ps[..|ps| - 1], |ps| - 1;
      var CutAll(plans, stages, n) := CutChildren(cat, jobId, init, next);
      var Cut(plan, stages', _) := CutPlan(cat, jobId, ps[last], n);
      RunsConcat(engine, stages, stages', outputs);
      DenotesAllSnoc(engine, Context(outputs, map[]), plans, plan, outs);
      CutChildrenIsSound(engine, cat, jobId, init, next, outputs, outs[..last]);
      CutIsSound(engine, cat, jobId, ps[last], n, outputs, outs[last]);
      DenotesAllSnoc(engine, NOTHING_RUN, StrippedAll(init), Stripped(ps[last]), outs);
    }
  }
}
