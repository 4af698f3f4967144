/**
 Physical plans as the scheduler sees them: trees of operators, of which only the exchanges, the
 window aggregate and the three shuffle operators are told apart.
 */
module Plans {
  import opened Wrappers

  datatype Row = Row(cells: seq<string>)

  /** Names a list of columns; only equality of schemas matters here. */
  type Schema = seq<string>

  datatype Partitioning =
    | Hash(exprs: string, count: nat)
    | RoundRobinBatch(count: nat)
    | UnknownPartitioning(count: nat)

  /** Where one map task left the rows of one output partition. */
  datatype PartitionLocation = PartitionLocation(
    mapPartitionId: nat, partitionId: nat, executorId: string, path: string,
    numRows: nat, numBatches: nat)

  datatype Operator =
    | CoalescePartitions
    | SortPreservingMerge(ordering: string)
    | Repartition(partitioning: Partitioning)
    | WindowAgg(window: string)
    | UnresolvedShuffle(stageId: nat, schema: Schema, outputPartitionCount: nat)
    | ShuffleReader(stageId: nat, schema: Schema, partition: seq<seq<PartitionLocation>>)
    | ShuffleWriter(jobId: string, stageId: nat, shuffleOutputPartitioning: Option<Partitioning>)
    | Other(name: string)

  datatype Plan = Plan(op: Operator, children: seq<Plan>)

  /** What DataFusion knows about the operators that Ballista does not look into. */
  datatype Catalog = Catalog(
    partitions: (Operator, seq<nat>) -> nat,
    schema: (Operator, seq<Schema>) -> Schema)

  predicate IsUnary(op: Operator) {
    op.CoalescePartitions? || op.SortPreservingMerge? || op.Repartition? || op.WindowAgg? || op.ShuffleWriter?
  }

  /** The operators with a fixed number of inputs have that many. */
  predicate WellFormed(p: Plan) {
    && (IsUnary(p.op) ==> |p.children| == 1)
    && (p.op.UnresolvedShuffle? || p.op.ShuffleReader? ==> |p.children| == 0)
    && forall i :: 0 <= i < |p.children| ==> WellFormed(p.children[i])
  }

  predicate IsExchange(op: Operator) {
    op.CoalescePartitions? || op.SortPreservingMerge? || (op.Repartition? && op.partitioning.Hash?)
  }

  predicate IsShuffle(op: Operator) {
    op.UnresolvedShuffle? || op.ShuffleReader? || op.ShuffleWriter?
  }

  /** A plan as it comes from the query optimizer, before any stage was cut. */
  predicate IsQuery(p: Plan) {
    !IsShuffle(p.op) && forall i :: 0 <= i < |p.children| ==> IsQuery(p.children[i])
  }

  predicate HasNoWindowAgg(p: Plan) {
    !p.op.WindowAgg? && forall i :: 0 <= i < |p.children| ==> HasNoWindowAgg(p.children[i])
  }

  predicate HasNoReader(p: Plan) {
    !p.op.ShuffleReader? && forall i :: 0 <= i < |p.children| ==> HasNoReader(p.children[i])
  }

  /** How many partitions a plan produces (`properties().output_partitioning().partition_count()`). */
  function PartitionCount(cat: Catalog, p: Plan): nat {
    match p.op
    case CoalescePartitions => 1
    case SortPreservingMerge(_) => 1
    case Repartition(partitioning) => partitioning.count
    case UnresolvedShuffle(_, _, count) => count
    case ShuffleReader(_, _, partition) => |partition|
    case ShuffleWriter(_, _, Some(partitioning)) => partitioning.count
    case ShuffleWriter(_, _, None) => if |p.children| == 1 then PartitionCount(cat, p.children[0]) else 0
    case _ => cat.partitions(p.op, PartitionCounts(cat, p.children))
  }

  function PartitionCounts(cat: Catalog, ps: seq<Plan>): (ns: seq<nat>)
    ensures |ns| == |ps|
    ensures forall i :: 0 <= i < |ps| ==> ns[i] == PartitionCount(cat, ps[i])
  {
    if ps == [] then [] else PartitionCounts(cat, ps[..|ps| - 1]) + [PartitionCount(cat, ps[|ps| - 1])]
  }

  /** The schema of a plan: exchanges and writers pass their input's through. */
  function SchemaOf(cat: Catalog, p: Plan): Schema {
    match p.op
    case UnresolvedShuffle(_, schema, _) => schema
    case ShuffleReader(_, schema, _) => schema
    case _ =>
      if |p.children| == 1 && (IsExchange(p.op) || p.op.Repartition? || p.op.ShuffleWriter?)
      then SchemaOf(cat, p.children[0])
      else cat.schema(p.op, SchemasOf(cat, p.children))
  }

  function SchemasOf(cat: Catalog, ps: seq<Plan>): (ss: seq<Schema>)
    ensures |ss| == |ps|
    ensures forall i :: 0 <= i < |ps| ==> ss[i] == SchemaOf(cat, ps[i])
  {
    if ps == [] then [] else SchemasOf(cat, ps[..|ps| - 1]) + [SchemaOf(cat, ps[|ps| - 1])]
  }

  /** Same partition count and same schema. */
  predicate SameShape(cat: Catalog, p: Plan, q: Plan) {
    PartitionCount(cat, p) == PartitionCount(cat, q) && SchemaOf(cat, p) == SchemaOf(cat, q)
  }

  predicate AllSameShape(cat: Catalog, ps: seq<Plan>, qs: seq<Plan>) {
    |ps| == |qs| && forall i :: 0 <= i < |ps| ==> SameShape(cat, ps[i], qs[i])
  }

  lemma NodeShape(cat: Catalog, op: Operator, ps: seq<Plan>, qs: seq<Plan>)
    requires AllSameShape(cat, ps, qs)
    ensures SameShape(cat, Plan(op, ps), Plan(op, qs))
  {
    assert PartitionCounts(cat, ps) == PartitionCounts(cat, qs);
    assert SchemasOf(cat, ps) == SchemasOf(cat, qs);
  }

  /** The unresolved shuffles of a plan, from left to right. */
  function FindUnresolvedShuffles(p: Plan): (us: seq<Operator>)
    ensures forall u :: u in us ==> u.UnresolvedShuffle?
  {
    if p.op.UnresolvedShuffle? then [p.op] else FindUnresolvedInAll(p.children)
  }

  function FindUnresolvedInAll(ps: seq<Plan>): (us: seq<Operator>)
    ensures forall u :: u in us ==> u.UnresolvedShuffle?
  {
    if ps == [] then [] else FindUnresolvedInAll(ps[..|ps| - 1]) + FindUnresolvedShuffles(ps[|ps| - 1])
  }

  lemma {:induction false} FindUnresolvedConcat(ps: seq<Plan>, qs: seq<Plan>)
    ensures FindUnresolvedInAll(ps + qs) == FindUnresolvedInAll(ps) + FindUnresolvedInAll(qs)
  {
    if qs == [] {
      assert ps + qs == ps;
    } else {
      var front, last := qs[..|qs| - 1], qs[|qs| - 1];
      FindUnresolvedConcat(ps, front);
      assert (ps + qs)[..|ps + qs| - 1] == ps + front && (ps + qs)[|ps + qs| - 1] == last;
      var a, b, c := FindUnresolvedInAll(ps), FindUnresolvedInAll(front), FindUnresolvedShuffles(last);
      assert (a + b) + c == a + (b + c);
    }
  }

  lemma FindUnresolvedSingle(p: Plan)
    ensures FindUnresolvedInAll([p]) == FindUnresolvedShuffles(p)
  {
    assert [p][..0] == [];
  }

  /** An unresolved shuffle anywhere in a forest is one of some tree of it. */
  lemma {:induction false} FindUnresolvedIn(ps: seq<Plan>, u: Operator)
    ensures u in FindUnresolvedInAll(ps) <==> exists i :: 0 <= i < |ps| && u in FindUnresolvedShuffles(ps[i])
  {
    if ps != [] {
      var init := ps[..|ps| - 1];
      FindUnresolvedIn(init, u);
      if u in FindUnresolvedInAll(init) {
        var i :| 0 <= i < |init| && u in FindUnresolvedShuffles(init[i]);
        assert u in FindUnresolvedShuffles(ps[i]);
      }
      if i :| 0 <= i < |ps| && u in FindUnresolvedShuffles(ps[i]) {
        assert i < |init| ==> u in FindUnresolvedShuffles(init[i]);
      }
    }
  }

  predicate Occurs(p: Plan, op: Operator) {
    p.op == op || exists i :: 0 <= i < |p.children| && Occurs(p.children[i], op)
  }

  /** The search finds exactly the unresolved shuffles that occur anywhere in the plan. */
  lemma {:induction false} FindsExactly(p: Plan, u: Operator)
    requires WellFormed(p) && u.UnresolvedShuffle?
    ensures u in FindUnresolvedShuffles(p) <==> Occurs(p, u)
  {
    if !p.op.UnresolvedShuffle? {
      FindUnresolvedIn(p.children, u);
      forall i | 0 <= i < |p.children|
        ensures u in FindUnresolvedShuffles(p.children[i]) <==> Occurs(p.children[i], u)
      {
        FindsExactly(p.children[i], u);
      }
    }
  }
}
