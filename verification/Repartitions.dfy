/**
 Which of the repartitions that the planner drops can be dropped: those whose output is only ever
 looked at as a bag of rows.
 */
module Repartitions {
  import opened Plans
  import opened Planner
  import opened Semantics
  import opened StageCorrectness
  import opened QueryExecution
  import opened ResultBags

  predicate IsDropped(op: Operator) {
    op.Repartition? && !op.partitioning.Hash?
  }

  /** Operators that look at all the rows of their input, but not at the partitions they are in. */
  predicate Gathers(op: Operator) {
    op.CoalescePartitions? || op.Repartition?
  }

  /** One partition with its rows in any order. */
  predicate OneBag(op: Operator) {
    op.CoalescePartitions? || (op.Repartition? && op.partitioning.Hash? && op.partitioning.count == 1)
  }

  /**
   Every repartition that is dropped deals out to at least one partition, and either sits, possibly
   through others of its kind, below an operator that gathers, or makes one bag out of one bag.
   */
  predicate Harmless(p: Plan, gathered: bool) {
    if IsDropped(p.op) then
      && |p.children| == 1 && p.op.partitioning.count > 0 && Harmless(p.children[0], true)
      && (gathered || (p.op.partitioning.count == 1 && OneBag(Stripped(p.children[0]).op)))
    else
      forall i :: 0 <= i < |p.children| ==> Harmless(p.children[i], Gathers(p.op))
  }

  lemma {:induction false} HashOnlyIsHarmless(p: Plan, gathered: bool)
    requires RepartitionsByHashOnly(p)
    ensures Harmless(p, gathered)
  {
    forall i | 0 <= i < |p.children| ensures Harmless(p.children[i], Gathers(p.op)) {
      HashOnlyIsHarmless(p.children[i], Gathers(p.op));
    }
  }

  lemma {:induction false} StrippedIsWellFormed(p: Plan)
    requires WellFormed(p)
    ensures WellFormed(Stripped(p))
  {
    forall i | 0 <= i < |p.children| ensures WellFormed(Stripped(p.children[i])) {
      StrippedIsWellFormed(p.children[i]);
    }
  }

  // ---------- Dropping them keeps the results ----------

  ghost predicate SameRows(s: Table, t: Table) {
    multiset(Rows(s)) == multiset(Rows(t))
  }

  /** An operator that gathers cannot tell tables with the same rows apart. */
  lemma GathersRows(engine: Engine, op: Operator, input: Table, input': Table, out: Table)
    requires Gathers(op) && !IsDropped(op) && SameRows(input, input') && Applies(engine, op, [input], out)
    ensures Applies(engine, op, [input'], out)
  {
    if op.Repartition? {
      var Hash(exprs, count) := op.partitioning;
      forall q | 0 <= q < count
        ensures multiset(out[q]) == multiset(RowsTo(engine, exprs, count, q, Rows(input')))
      {
        RowsToOfSameBag(engine, exprs, count, q, Rows(input), Rows(input'));
      }
    }
  }

  lemma RowsOfOne(rows: seq<Row>)
    ensures Rows([rows]) == rows
  {
    assert [rows][..0] == [];
  }

  /** All rows to one partition: to one bag. */
  lemma {:induction false} AllTo(engine: Engine, exprs: string, rows: seq<Row>)
    ensures RowsTo(engine, exprs, 1, 0, rows) == rows
  {
    if rows != [] {
      AllTo(engine, exprs, rows[..|rows| - 1]);
      assert engine.hash(exprs, rows[|rows| - 1]) % 1 == 0;
    }
  }

  /** The results of one bag are the tables of one partition with the rows of the input. */
  lemma OneBagIff(engine: Engine, op: Operator, input: Table, out: Table)
    requires OneBag(op)
    ensures Applies(engine, op, [input], out) <==> |out| == 1 && SameRows(out, input)
  {
    if op.Repartition? {
      AllTo(engine, op.partitioning.exprs, Rows(input));
    }
    if |out| == 1 {
      RowsOfOne(out[0]);
      assert out == [out[0]];
    }
  }

  /** All rows in the partition i of count. */
  function Dealt(rows: seq<Row>, count: nat, i: nat): (t: Table)
    requires i < count
    ensures |t| == count && t[i] == rows
    ensures Rows(t) == rows
  {
    if i == count - 1 then
      NothingIn(count - 1);
      var empty: Table := seq(count - 1, _ => []);
      assert (empty + [rows])[..count - 1] == empty;
      empty + [rows]
    else
      var front := Dealt(rows, count - 1, i);
      assert (front + [[]])[..count - 1] == front;
      front + [[]]
  }

  lemma {:induction false} NothingIn(count: nat)
    ensures Rows(seq(count, _ => [])) == []
  {
    if count > 0 {
      var t: Table := seq(count, _ => []);
      assert t[..count - 1] == seq(count - 1, _ => []);
      NothingIn(count - 1);
    }
  }

  function Side(p: Plan, stripped: bool): Plan {
    if stripped then Stripped(p) else p
  }

  /** Where only the rows matter, the plan and what is left of it have results with the same rows. */
  lemma {:induction false} SameRowsEitherWay(engine: Engine, p: Plan, stripped: bool, out: Table)
    returns (out': Table)
    requires WellFormed(p) && IsQuery(p) && Harmless(p, true)
    requires Denotes(engine, NOTHING_RUN, Side(p, stripped), out)
    ensures Denotes(engine, NOTHING_RUN, Side(p, !stripped), out') && SameRows(out, out')
    decreases p, 3
  {
    if !IsDropped(p.op) {
      SameEitherWay(engine, p, stripped, out);
      out' := out;
    } else if stripped {
      var input := SameRowsEitherWay(engine, p.children[0], true, out);
      out' := Dealt(Rows(input), p.op.partitioning.count, 0);
      DenotesUnary(engine, NOTHING_RUN, p, input, out');
    } else {
      var input := InputOfUnary(engine, NOTHING_RUN, p, out);
      out' := SameRowsEitherWay(engine, p.children[0], false, input);
    }
  }

  /** The plan and what is left of it have the same results. */
  lemma {:induction false} SameEitherWay(engine: Engine, p: Plan, stripped: bool, out: Table)
    requires WellFormed(p) && IsQuery(p) && Harmless(p, false)
    requires Denotes(engine, NOTHING_RUN, Side(p, stripped), out)
    ensures Denotes(engine, NOTHING_RUN, Side(p, !stripped), out)
    decreases p, 2
  {
    if IsDropped(p.op) {
      SameForOneBag(engine, p, stripped, out);
    } else if Gathers(p.op) {
      var input := InputOfUnary(engine, NOTHING_RUN, Side(p, stripped), out);
      var input' := SameRowsEitherWay(engine, p.children[0], stripped, input);
      GathersRows(engine, p.op, input, input', out);
      DenotesUnary(engine, NOTHING_RUN, Side(p, !stripped), input', out);
    } else {
      var from, to := Side(p, stripped), Side(p, !stripped);
      var ins :| DenotesAll(engine, NOTHING_RUN, from.children, ins) && Applies(engine, p.op, ins, out);
      forall i | 0 <= i < |p.children| ensures Denotes(engine, NOTHING_RUN, to.children[i], ins[i]) {
        SameEitherWay(engine, p.children[i], stripped, ins[i]);
      }
      assert DenotesAll(engine, NOTHING_RUN, to.children, ins);
    }
  }

  lemma {:induction false} SameForOneBag(engine: Engine, p: Plan, stripped: bool, out: Table)
    requires WellFormed(p) && IsQuery(p) && Harmless(p, false) && IsDropped(p.op)
    requires Denotes(engine, NOTHING_RUN, Side(p, stripped), out)
    ensures Denotes(engine, NOTHING_RUN, Side(p, !stripped), out)
    decreases p, 1
  {
    if stripped {
      DealtOutOneBag(engine, p, out);
    } else {
      LeftOfOneBag(engine, p, out);
    }
  }

  lemma {:induction false} DealtOutOneBag(engine: Engine, p: Plan, out: Table)
    requires WellFormed(p) && IsQuery(p) && Harmless(p, false) && IsDropped(p.op)
    requires Denotes(engine, NOTHING_RUN, Stripped(p), out)
    ensures Denotes(engine, NOTHING_RUN, p, out)
    decreases p, 0
  {
    var child := p.children[0];
    var base := Stripped(child);
    StrippedIsWellFormed(child);
    var input := SameRowsEitherWay(engine, child, true, out);
    var below := InputOfUnary(engine, NOTHING_RUN, base, out);
    OneBagIff(engine, base.op, below, out);
    DenotesUnary(engine, NOTHING_RUN, p, input, out);
  }

  lemma {:induction false} LeftOfOneBag(engine: Engine, p: Plan, out: Table)
    requires WellFormed(p) && IsQuery(p) && Harmless(p, false) && IsDropped(p.op)
    requires Denotes(engine, NOTHING_RUN, p, out)
    ensures Denotes(engine, NOTHING_RUN, Stripped(p), out)
    decreases p, 0
  {
    var child := p.children[0];
    var base := Stripped(child);
    StrippedIsWellFormed(child);
    var input := InputOfUnary(engine, NOTHING_RUN, p, out);
    var left := SameRowsEitherWay(engine, child, false, input);
    var below := InputOfUnary(engine, NOTHING_RUN, base, left);
    OneBagIff(engine, base.op, below, left);
    OneBagIff(engine, base.op, below, out);
    DenotesUnary(engine, NOTHING_RUN, base, below, out);
  }

  /**
   For every plannable query whose dropped repartitions are harmless, running its stages and
   evaluating the query itself have the same possible results.
   */
  lemma StagesComputeTheHarmlessQuery(engine: Engine, cat: Catalog, jobId: string, p: Plan, next: nat, out: Table)
    requires WellFormed(p) && IsQuery(p) && HasNoWindowAgg(p) && Harmless(p, false)
    ensures StagesOf(cat, jobId, p, next).Success?
    ensures Denotes(engine, NOTHING_RUN, p, out) <==>
              exists outputs :: EndsWith(engine, StagesOf(cat, jobId, p, next).value, outputs, out)
  {
    StagesComputeTheQuery(engine, cat, jobId, p, next, out);
    if Denotes(engine, NOTHING_RUN, p, out) {
      SameEitherWay(engine, p, false, out);
    }
    if Denotes(engine, NOTHING_RUN, Stripped(p), out) {
      SameEitherWay(engine, p, true, out);
    }
  }

  // ---------- When dropping one changes the results ----------

  /** Whatever the operators mean, the stages have the results of the query. */
  ghost predicate StagesKeepResults(cat: Catalog, jobId: string, p: Plan, next: nat) {
    && StagesOf(cat, jobId, p, next).Success?
    && forall engine, out ::
         Denotes(engine, NOTHING_RUN, p, out) <==>
         exists outputs :: EndsWith(engine, StagesOf(cat, jobId, p, next).value, outputs, out)
  }

  predicate HashesToSome(p: Plan) {
    && (p.op.Repartition? ==> p.op.partitioning.count > 0)
    && forall i :: 0 <= i < |p.children| ==> HashesToSome(p.children[i])
  }

  const A: Row := Row(["a"])
  const B: Row := Row(["b"])

  /** Operators and merges that always give the same two rows, in this order; all rows hash alike. */
  const TWO_ROWS: Engine := Engine((_, _, out) => out == [[A, B]], (_, _, rows) => rows == [A, B], (_, _) => 0)

  /** A result of the query with this engine. */
  lemma {:induction false} Sample(q: Plan) returns (out: Table)
    requires WellFormed(q) && IsQuery(q) && RepartitionsByHashOnly(q) && HashesToSome(q)
    ensures Denotes(TWO_ROWS, NOTHING_RUN, q, out) && Rows(out) == [A, B]
    ensures |out| == if q.op.Repartition? then q.op.partitioning.count else 1
  {
    RowsOfOne([A, B]);
    if q.op.CoalescePartitions? || q.op.Repartition? {
      var input := Sample(q.children[0]);
      if q.op.Repartition? {
        out := Dealt(Rows(input), q.op.partitioning.count, 0);
        AllToFirst(q.op.partitioning.exprs, q.op.partitioning.count, Rows(input), out);
      } else {
        out := [Rows(input)];
      }
      DenotesUnary(TWO_ROWS, NOTHING_RUN, q, input, out);
    } else {
      out := [[A, B]];
      var ins := SampleAll(q.children);
      assert Applies(TWO_ROWS, q.op, ins, out);
    }
  }

  lemma {:induction false} SampleAll(qs: seq<Plan>) returns (outs: seq<Table>)
    requires forall i :: 0 <= i < |qs| ==>
               WellFormed(qs[i]) && IsQuery(qs[i]) && RepartitionsByHashOnly(qs[i]) && HashesToSome(qs[i])
    ensures DenotesAll(TWO_ROWS, NOTHING_RUN, qs, outs)
  {
    outs := [];
    if qs != [] {
      var n := |qs| - 1;
      var front := SampleAll(qs[..n]);
      var last := Sample(qs[n]);
      outs := front + [last];
      DenotesAllSnoc(TWO_ROWS, NOTHING_RUN, qs[..n], qs[n], outs);
      assert qs == qs[..n] + [qs[n]];
    }
  }

  lemma {:induction false} HashedRows(exprs: string, count: nat, q: nat, rows: seq<Row>)
    requires count > 0
    ensures RowsTo(TWO_ROWS, exprs, count, q, rows) == if q == 0 then rows else []
  {
    if rows != [] {
      HashedRows(exprs, count, q, rows[..|rows| - 1]);
    }
  }

  lemma AllToFirst(exprs: string, count: nat, rows: seq<Row>, out: Table)
    requires count > 0 && out == Dealt(rows, count, 0)
    ensures forall q :: 0 <= q < count ==> out[q] == RowsTo(TWO_ROWS, exprs, count, q, rows)
  {
    forall q | 0 <= q < count ensures out[q] == RowsTo(TWO_ROWS, exprs, count, q, rows) {
      HashedRows(exprs, count, q, rows);
      OthersEmpty(rows, count, 0, q);
    }
  }

  lemma {:induction false} OthersEmpty(rows: seq<Row>, count: nat, i: nat, q: nat)
    requires i < count && q < count
    ensures q != i ==> Dealt(rows, count, i)[q] == []
  {
    if i < count - 1 && q < count - 1 {
      OthersEmpty(rows, count - 1, i, q);
    }
  }

  /** If it does not make one bag out of one bag, some result of a repartition at the root is none of its input. */
  lemma {:induction false} NewResult(q: Plan, partitioning: Partitioning) returns (out: Table)
    requires WellFormed(q) && IsQuery(q) && RepartitionsByHashOnly(q) && HashesToSome(q) && !partitioning.Hash?
    requires !(partitioning.count == 1 && OneBag(q.op))
    ensures Denotes(TWO_ROWS, NOTHING_RUN, Plan(Repartition(partitioning), [q]), out) !=
            Denotes(TWO_ROWS, NOTHING_RUN, q, out)
  {
    var p, n := Plan(Repartition(partitioning), [q]), partitioning.count;
    var input := Sample(q);
    if |input| != n {
      out := input;
      if Denotes(TWO_ROWS, NOTHING_RUN, p, out) {
        var _ := InputOfUnary(TWO_ROWS, NOTHING_RUN, p, out);
      }
    } else if q.op.Repartition? {
      out := Dealt(Rows(input), n, 1);
      DenotesUnary(TWO_ROWS, NOTHING_RUN, p, input, out);
      assert |multiset(out[1])| == 2;
      if Denotes(TWO_ROWS, NOTHING_RUN, q, out) {
        var below := InputOfUnary(TWO_ROWS, NOTHING_RUN, q, out);
        HashedRows(q.op.partitioning.exprs, n, 1, Rows(below));
      }
    } else {
      out := [[B, A]];
      RowsOfOne([B, A]);
      assert multiset([B, A]) == multiset([A, B]);
      DenotesUnary(TWO_ROWS, NOTHING_RUN, p, input, out);
    }
  }

  /**
   Dropping a repartition at the root of a query that otherwise repartitions by hash keeps its
   results, whatever the operators mean, if and only if it makes one bag out of one bag.
   */
  lemma {:induction false} DroppingKeepsResultsIff(
    cat: Catalog, jobId: string, q: Plan, partitioning: Partitioning, next: nat)
    requires WellFormed(q) && IsQuery(q) && HasNoWindowAgg(q) && RepartitionsByHashOnly(q) && HashesToSome(q)
    requires !partitioning.Hash?
    ensures StagesKeepResults(cat, jobId, Plan(Repartition(partitioning), [q]), next) <==>
              partitioning.count == 1 && OneBag(q.op)
  {
    var p := Plan(Repartition(partitioning), [q]);
    StrippedIsIdentityIff(q);
    if partitioning.count == 1 && OneBag(q.op) {
      HashOnlyIsHarmless(q, true);
      StagesComputeTheHarmlessQuery(TWO_ROWS, cat, jobId, p, next, []);
      forall engine, out ensures Denotes(engine, NOTHING_RUN, p, out) <==>
                                   exists outputs :: EndsWith(engine, StagesOf(cat, jobId, p, next).value, outputs, out)
      {
        StagesComputeTheHarmlessQuery(engine, cat, jobId, p, next, out);
      }
    } else {
      var out := NewResult(q, partitioning);
      StagesComputeTheQuery(TWO_ROWS, cat, jobId, p, next, out);
    }
  }

  // ---------- The cluster ----------

  /** With harmless repartitions the cluster's result has, in each partition, the rows of the query itself. */
  lemma ClusterComputesTheHarmlessBags(
    engine: Engine, cat: Catalog, jobId: string, p: Plan, next: nat, runs: seq<StageRun>, i: nat,
    local: Table)
    requires IgnoresOrder(engine)
    requires WellFormed(p) && IsQuery(p) && HasNoWindowAgg(p) && Harmless(p, false)
    requires StagesOf(cat, jobId, p, next).Success? ==>
               Finishes(engine, cat, jobId, StagesOf(cat, jobId, p, next).value, runs, i)
    requires Denotes(engine, NOTHING_RUN, p, local)
    ensures i < |runs| && SameBags(runs[i].written, local)
  {
    SameEitherWay(engine, p, false, local);
    ClusterComputesTheStrippedBags(engine, cat, jobId, p, next, runs, i, local);
  }
}
