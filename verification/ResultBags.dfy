/**
 For engines whose operators do not look at the order of rows, a query has one result up to that
 order, and the cluster computes it, whatever each task fetched in which order: per partition, the
 same bag of rows.
 */
module ResultBags {
  import opened Wrappers
  import opened Plans
  import opened Planner
  import opened StageStructure
  import opened Semantics
  import opened StageCorrectness
  import opened TaskResults
  import opened Shuffle
  import opened QueryExecution

  /** The same rows in every partition, in any order. */
  ghost predicate SameBags(s: Table, t: Table) {
    |s| == |t| && forall q :: 0 <= q < |s| ==> multiset(s[q]) == multiset(t[q])
  }

  ghost predicate AllSameBags(ss: seq<Table>, ts: seq<Table>) {
    |ss| == |ts| && forall i :: 0 <= i < |ss| ==> SameBags(ss[i], ts[i])
  }

  /** Operators and merges give the same bags on the same bags. */
  ghost predicate IgnoresOrder(engine: Engine) {
    && (forall op, ins, ins', out, out' ::
          engine.operate(op, ins, out) && engine.operate(op, ins', out') && AllSameBags(ins, ins') ==>
          SameBags(out, out'))
    && (forall ordering, input, input', rows, rows' ::
          engine.merge(ordering, input, rows) && engine.merge(ordering, input', rows') && SameBags(input, input') ==>
          multiset(rows) == multiset(rows'))
  }

  lemma {:induction false} RowsOfSameBags(s: Table, t: Table)
    requires SameBags(s, t)
    ensures multiset(Rows(s)) == multiset(Rows(t))
  {
    if s != [] {
      RowsOfSameBags(s[..|s| - 1], t[..|t| - 1]);
    }
  }

  lemma RowsToOfSameBag(engine: Engine, exprs: string, count: nat, q: nat, a: seq<Row>, b: seq<Row>)
    requires multiset(a) == multiset(b)
    ensures multiset(RowsTo(engine, exprs, count, q, a)) == multiset(RowsTo(engine, exprs, count, q, b))
  {
    forall row ensures multiset(RowsTo(engine, exprs, count, q, a))[row] ==
                       multiset(RowsTo(engine, exprs, count, q, b))[row]
    {
      RowsToMultiplicity(engine, exprs, count, q, a, row);
      RowsToMultiplicity(engine, exprs, count, q, b, row);
    }
  }

  lemma AppliesToSameBags(
    engine: Engine, op: Operator, ins: seq<Table>, ins': seq<Table>, out: Table, out': Table)
    requires IgnoresOrder(engine)
    requires !IsShuffle(op) && (op.Repartition? ==> op.partitioning.Hash?)
    requires AllSameBags(ins, ins') && Applies(engine, op, ins, out) && Applies(engine, op, ins', out')
    ensures SameBags(out, out')
  {
    match op {
      case CoalescePartitions =>
        RowsOfSameBags(ins[0], ins'[0]);
      case SortPreservingMerge(_) =>
      case Repartition(Hash(exprs, count)) =>
        RowsOfSameBags(ins[0], ins'[0]);
        forall q | 0 <= q < count ensures multiset(out[q]) == multiset(out'[q]) {
          RowsToOfSameBag(engine, exprs, count, q, Rows(ins[0]), Rows(ins'[0]));
        }
      case _ =>
    }
  }

  /** All results of a query are the same up to the order of rows. */
  lemma {:induction false} ResultsAreUnique(engine: Engine, p: Plan, out: Table, out': Table)
    requires IgnoresOrder(engine)
    requires IsQuery(p) && RepartitionsByHashOnly(p)
    requires Denotes(engine, NOTHING_RUN, p, out) && Denotes(engine, NOTHING_RUN, p, out')
    ensures SameBags(out, out')
  {
    var ins :| DenotesAll(engine, NOTHING_RUN, p.children, ins) && Applies(engine, p.op, ins, out);
    var ins' :| DenotesAll(engine, NOTHING_RUN, p.children, ins') && Applies(engine, p.op, ins', out');
    forall i | 0 <= i < |ins| ensures SameBags(ins[i], ins'[i]) {
      ResultsAreUnique(engine, p.children[i], ins[i], ins'[i]);
    }
    AppliesToSameBags(engine, p.op, ins, ins', out, out');
  }

  // ---------- Tasks give the same bags ----------

  /** Both runs have the referenced outputs, up to the order of rows. */
  ghost predicate SameOutputs(us: seq<Operator>, a: map<nat, StageOutput>, b: map<nat, StageOutput>)
    requires forall u :: u in us ==> u.UnresolvedShuffle?
  {
    forall u :: u in us ==>
      && u.stageId in a && u.stageId in b
      && a[u.stageId].partitioning == b[u.stageId].partitioning
      && SameBags(a[u.stageId].written, b[u.stageId].written)
  }

  lemma ReadingsOfSameBags(
    engine: Engine, partitioning: Option<Partitioning>, written: Table, written': Table, out: Table, out': Table)
    requires IgnoresOrder(engine) && SameBags(written, written')
    requires ShuffleRead(engine, partitioning, written, out) && ShuffleRead(engine, partitioning, written', out')
    ensures SameBags(out, out')
  {
    if partitioning.Some? {
      var op := Repartition(partitioning.value);
      AppliesToSameBags(engine, op, [written], [written'], out, out');
    }
  }

  /** What a stage makes of the same bags is the same bags. */
  lemma {:induction false} StageKeepsBags(
    engine: Engine, a: map<nat, StageOutput>, b: map<nat, StageOutput>, p: Plan, out: Table, out': Table)
    requires IgnoresOrder(engine)
    requires SinglePartitioning(p) && HasNoReader(p) && SameOutputs(FindUnresolvedShuffles(p), a, b)
    requires Denotes(engine, Context(a, map[]), p, out) && Denotes(engine, Context(b, map[]), p, out')
    ensures SameBags(out, out')
    decreases p
  {
    if p.op.UnresolvedShuffle? {
      assert p.op in FindUnresolvedShuffles(p);
      var id := p.op.stageId;
      ReadingsOfSameBags(engine, a[id].partitioning, a[id].written, b[id].written, out, out');
    } else {
      var ins :| DenotesAll(engine, Context(a, map[]), p.children, ins) && Applies(engine, p.op, ins, out);
      var ins' :| DenotesAll(engine, Context(b, map[]), p.children, ins') && Applies(engine, p.op, ins', out');
      forall i | 0 <= i < |ins| ensures SameBags(ins[i], ins'[i]) {
        SameOutputsBelow(p, i, a, b);
        StageKeepsBags(engine, a, b, p.children[i], ins[i], ins'[i]);
      }
      if !p.op.ShuffleWriter? {
        AppliesToSameBags(engine, p.op, ins, ins', out, out');
      }
    }
  }

  lemma SameOutputsBelow(p: Plan, i: nat, a: map<nat, StageOutput>, b: map<nat, StageOutput>)
    requires !p.op.UnresolvedShuffle? && i < |p.children| && SameOutputs(FindUnresolvedShuffles(p), a, b)
    ensures SameOutputs(FindUnresolvedShuffles(p.children[i]), a, b)
  {
    forall u | u in FindUnresolvedShuffles(p.children[i]) ensures u in FindUnresolvedShuffles(p) {
      FindUnresolvedIn(p.children, u);
    }
  }

  /** The tasks of a stage together write the bags that the stage has as a whole. */
  lemma TasksKeepBags(
    engine: Engine, a: map<nat, StageOutput>, b: map<nat, StageOutput>, stage: Plan, written: Table, out: Table)
    requires IgnoresOrder(engine)
    requires SinglePartitioning(stage) && HasNoReader(stage) && SameOutputs(FindUnresolvedShuffles(stage), a, b)
    requires TaskWise(engine, Context(a, map[]), stage, written) && Denotes(engine, Context(b, map[]), stage, out)
    ensures SameBags(written, out)
  {
    var some :| Denotes(engine, Context(a, map[]), stage, some) && |some| == |written|;
    StageKeepsBags(engine, a, b, stage, some, out);
    forall t | 0 <= t < |written| ensures multiset(written[t]) == multiset(out[t]) {
      var result := ResultOfTask(engine, Context(a, map[]), stage, written, t);
      StageKeepsBags(engine, a, b, stage, result, out);
    }
  }

  /** Task by task or as wholes, the stages of a query compute the same bags. */
  lemma {:induction false} StagesKeepBags(
    engine: Engine, cat: Catalog, jobId: string, stages: seq<Plan>, from: nat,
    a: map<nat, StageOutput>, b: map<nat, StageOutput>, i: nat)
    requires IgnoresOrder(engine)
    requires StagesLinked(cat, jobId, stages, from) && AllSinglePartitioning(stages)
    requires TaskRuns(engine, stages, a) && Runs(engine, stages, b) && i < |stages|
    ensures var id := stages[i].op.stageId;
            && id in a && id in b && a[id].partitioning == b[id].partitioning
            && SameBags(a[id].written, b[id].written)
  {
    assert StageTaskRuns(engine, stages[i], a) && StageRuns(engine, stages[i], b);
    forall u | u in FindUnresolvedShuffles(stages[i])
      ensures u.stageId in a && u.stageId in b && a[u.stageId].partitioning == b[u.stageId].partitioning
      ensures SameBags(a[u.stageId].written, b[u.stageId].written)
    {
      assert NamesSome(cat, u, stages[..i]);
      var j :| 0 <= j < i && Names(cat, u, stages[..i][j]);
      StagesKeepBags(engine, cat, jobId, stages, from, a, b, j);
    }
    var id := stages[i].op.stageId;
    TasksKeepBags(engine, a, b, stages[i], a[id].written, b[id].written);
  }

  /** The cluster's result has the bags of every result of the query that the stages stand for. */
  lemma ClusterComputesTheStrippedBags(
    engine: Engine, cat: Catalog, jobId: string, p: Plan, next: nat, runs: seq<StageRun>, i: nat,
    local: Table)
    requires IgnoresOrder(engine)
    requires WellFormed(p) && IsQuery(p) && HasNoWindowAgg(p)
    requires StagesOf(cat, jobId, p, next).Success? ==>
               Finishes(engine, cat, jobId, StagesOf(cat, jobId, p, next).value, runs, i)
    requires Denotes(engine, NOTHING_RUN, Stripped(p), local)
    ensures i < |runs| && SameBags(runs[i].written, local)
  {
    StagesAreWellStructured(cat, jobId, p, next);
    QueryStagesAreLinked(cat, jobId, p, next);
    var stages := StagesOf(cat, jobId, p, next).value;
    LastStageEnds(engine, cat, jobId, stages, next, runs, i);
    StagesComputeTheQuery(engine, cat, jobId, p, next, local);
    var whole :| EndsWith(engine, stages, whole, local);
    StagesKeepBags(engine, cat, jobId, stages, next, After(runs).outputs, whole, |stages| - 1);
  }

  /** The cluster's result and the result computed in one process hold the same rows in each partition. */
  lemma ClusterComputesTheSameBags(
    engine: Engine, cat: Catalog, jobId: string, p: Plan, next: nat, runs: seq<StageRun>, i: nat,
    local: Table)
    requires IgnoresOrder(engine)
    requires WellFormed(p) && IsQuery(p) && HasNoWindowAgg(p) && RepartitionsByHashOnly(p)
    requires StagesOf(cat, jobId, p, next).Success? ==>
               Finishes(engine, cat, jobId, StagesOf(cat, jobId, p, next).value, runs, i)
    requires Denotes(engine, NOTHING_RUN, p, local)
    ensures i < |runs| && SameBags(runs[i].written, local)
  {
    StrippedIsIdentityIff(p);
    ClusterComputesTheStrippedBags(engine, cat, jobId, p, next, runs, i, local);
  }

  // ---------- Other repartitions ----------

  /** The example: one empty partition, dealt out to two. */
  const ONE_PARTITION: Engine := Engine((_, ins, out) => out == [[]], (_, _, _) => false, (_, _) => 0)

  const SCAN: Plan := Plan(Other("scan"), [])

  const DEALT_OUT: Plan := Plan(Repartition(RoundRobinBatch(2)), [SCAN])

  /**
   With a round-robin repartition the claim fails: the planner drops it, so the stages give one
   partition where the query has two.
   */
  lemma RoundRobinIsDropped(cat: Catalog, jobId: string)
    ensures WellFormed(DEALT_OUT) && IsQuery(DEALT_OUT) && HasNoWindowAgg(DEALT_OUT)
    ensures StagesOf(cat, jobId, DEALT_OUT, 0).Success?
    ensures Denotes(ONE_PARTITION, NOTHING_RUN, DEALT_OUT, [[], []])
    ensures !exists outputs :: EndsWith(ONE_PARTITION, StagesOf(cat, jobId, DEALT_OUT, 0).value, outputs, [[], []])
  {
    var engine := ONE_PARTITION;
    var one: Table, two: Table := [[]], [[], []];
    assert DenotesAll(engine, NOTHING_RUN, SCAN.children, []);
    assert Denotes(engine, NOTHING_RUN, SCAN, [[]]);
    assert one[..0] == [] && Rows(one) == [];
    assert two[..1] == one && Rows(two) == [];
    DenotesUnary(engine, NOTHING_RUN, DEALT_OUT, one, two);
    StagesComputeTheQuery(engine, cat, jobId, DEALT_OUT, 0, two);
    assert Stripped(DEALT_OUT) == Stripped(SCAN) == SCAN;
  }

  // ---------- Schema and partition count ----------

  /** What the planner makes of a node has the shape of the node. */
  lemma RootShape(
    cat: Catalog, jobId: string, op: Operator, children: seq<Plan>, stages: seq<Plan>, next: nat, ps: seq<Plan>)
    requires children != [] && (IsUnary(op) ==> |children| == 1) && !IsShuffle(op)
    requires CutRoot(cat, jobId, op, children, stages, next).Cut?
    requires AllSameShape(cat, children, ps)
    ensures SameShape(cat, CutRoot(cat, jobId, op, children, stages, next).plan,
                      if op.Repartition? && !op.partitioning.Hash? then ps[0] else Plan(op, ps))
  {
    NodeShape(cat, op, children, ps);
    var q := CutRoot(cat, jobId, op, children, stages, next).plan;
    if IsExchange(op) {
      assert SchemaOf(cat, Plan(op, children)) == SchemaOf(cat, children[0]);
      if !op.Repartition? {
        assert SchemaOf(cat, q) == SchemaOf(cat, q.children[0]);
      }
    }
  }

  /** What stays behind has the schema and partition count of the plan it stands for. */
  lemma {:induction false} CutKeepsShape(cat: Catalog, jobId: string, p: Plan, next: nat)
    requires WellFormed(p) && IsQuery(p)
    requires CutPlan(cat, jobId, p, next).Cut?
    ensures SameShape(cat, CutPlan(cat, jobId, p, next).plan, Stripped(p))
    decreases p, 1
  {
    if p.children != [] {
      CutChildrenKeepsShape(cat, jobId, p.children, next);
      var CutAll(children, stages, n) := CutChildren(cat, jobId, p.children, next);
      RootShape(cat, jobId, p.op, children, stages, n, StrippedAll(p.children));
    }
  }

  lemma {:induction false} CutChildrenKeepsShape(cat: Catalog, jobId: string, ps: seq<Plan>, next: nat)
    requires forall i :: 0 <= i < |ps| ==> WellFormed(ps[i]) && IsQuery(ps[i])
    requires CutChildren(cat, jobId, ps, next).CutAll?
    ensures AllSameShape(cat, CutChildren(cat, jobId, ps, next).plans, StrippedAll(ps))
    decreases ps, 0
  {
    if ps != [] {
      CutChildrenKeepsShape(cat, jobId, ps[..|ps| - 1], next);
      var n := CutChildren(cat, jobId, ps[..|ps| - 1], next).nextStageId;
      CutKeepsShape(cat, jobId, ps[|ps| - 1], n);
    }
  }
}
