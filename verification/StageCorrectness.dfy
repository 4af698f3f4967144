/**
 The planner preserves meaning: the tables that running the stages can end with are exactly the
 tables the original plan can produce.
 */
module StageCorrectness {
  import opened Wrappers
  import opened Plans
  import opened Planner
  import opened StageStructure
  import opened Semantics

  /** The outputs are those of stages numbered in (from, to]. */
  predicate Within(outputs: map<nat, StageOutput>, from: nat, to: nat) {
    forall id :: id in outputs ==> from < id <= to
  }

  lemma CutCountsUp(cat: Catalog, jobId: string, p: Plan, next: nat)
    requires WellFormed(p) && IsQuery(p)
    requires CutPlan(cat, jobId, p, next).Cut?
    ensures next <= CutPlan(cat, jobId, p, next).nextStageId
  {
    CutIsGood(cat, jobId, p, next);
  }

  lemma CutChildrenCountsUp(cat: Catalog, jobId: string, ps: seq<Plan>, next: nat)
    requires forall i :: 0 <= i < |ps| ==> WellFormed(ps[i]) && IsQuery(ps[i])
    requires CutChildren(cat, jobId, ps, next).CutAll?
    ensures next <= CutChildren(cat, jobId, ps, next).nextStageId
  {
    CutChildrenIsGood(cat, jobId, ps, next);
  }

  /** A stage that computes `written` joins the stages that have run. */
  lemma AddStage(
    engine: Engine, stages: seq<Plan>, outputs: map<nat, StageOutput>, writer: Plan, written: Table)
    returns (outputs': map<nat, StageOutput>)
    requires Runs(engine, stages, outputs)
    requires writer.op.ShuffleWriter? && |writer.children| == 1 && writer.op.stageId !in outputs
    requires Denotes(engine, Context(outputs, map[]), writer.children[0], written)
    ensures outputs' == outputs[writer.op.stageId := StageOutput(writer.op.shuffleOutputPartitioning, written)]
    ensures Runs(engine, stages + [writer], outputs')
  {
    outputs' := outputs[writer.op.stageId := StageOutput(writer.op.shuffleOutputPartitioning, written)];
    RunsExtends(engine, outputs, outputs', stages);
    DenotesExtends(engine, outputs, outputs', writer.children[0], written);
    DenotesUnary(engine, Context(outputs', map[]), writer, written, written);
  }

  /** Two runs over different stages can be put together. */
  lemma JoinRuns(
    engine: Engine, ss: seq<Plan>, left: map<nat, StageOutput>, ts: seq<Plan>, right: map<nat, StageOutput>)
    requires Runs(engine, ss, left) && Runs(engine, ts, right)
    requires left.Keys !! right.Keys
    ensures Runs(engine, ss + ts, left + right)
    ensures Extends(left, left + right) && Extends(right, left + right)
  {
    RunsExtends(engine, left, left + right, ss);
    RunsExtends(engine, right, left + right, ts);
    RunsConcat(engine, ss, ts, left + right);
  }

  lemma DenotesAllExtends(
    engine: Engine, left: map<nat, StageOutput>, outputs: map<nat, StageOutput>, ps: seq<Plan>, outs: seq<Table>)
    requires Extends(left, outputs) && DenotesAll(engine, Context(left, map[]), ps, outs)
    ensures DenotesAll(engine, Context(outputs, map[]), ps, outs)
  {
    forall i | 0 <= i < |ps| ensures Denotes(engine, Context(outputs, map[]), ps[i], outs[i]) {
      DenotesExtends(engine, left, outputs, ps[i], outs[i]);
    }
  }

  /** What two sets of stages with different numbers compute, they compute together. */
  lemma CompleteTogether(
    engine: Engine, ss: seq<Plan>, left: map<nat, StageOutput>, ps: seq<Plan>, from: nat, mid: nat,
    ts: seq<Plan>, right: map<nat, StageOutput>, p: Plan, to: nat, outs: seq<Table>)
    requires from <= mid <= to && Within(left, from, mid) && Within(right, mid, to) && |outs| == |ps| + 1
    requires Runs(engine, ss, left) && Runs(engine, ts, right)
    requires DenotesAll(engine, Context(left, map[]), ps, outs[..|ps|])
    requires Denotes(engine, Context(right, map[]), p, outs[|ps|])
    ensures Within(left + right, from, to) && Runs(engine, ss + ts, left + right)
    ensures DenotesAll(engine, Context(left + right, map[]), ps + [p], outs)
  {
    JoinRuns(engine, ss, left, ts, right);
    DenotesAllExtends(engine, left, left + right, ps, outs[..|ps|]);
    DenotesExtends(engine, right, left + right, p, outs[|ps|]);
    DenotesAllSnoc(engine, Context(left + right, map[]), ps, p, outs);
  }

  lemma {:induction false} CutIsComplete(
    engine: Engine, cat: Catalog, jobId: string, p: Plan, next: nat, out: Table)
    returns (outputs: map<nat, StageOutput>)
    requires WellFormed(p) && IsQuery(p)
    requires CutPlan(cat, jobId, p, next).Cut?
    requires Denotes(engine, NOTHING_RUN, Stripped(p), out)
    ensures Within(outputs, next, CutPlan(cat, jobId, p, next).nextStageId)
    ensures Runs(engine, CutPlan(cat, jobId, p, next).stages, outputs)
    ensures Denotes(engine, Context(outputs, map[]), CutPlan(cat, jobId, p, next).plan, out)
    decreases p, 1
  {
    if p.children == [] {
      outputs := map[];
      assert Stripped(p) == p;
    } else {
      CutChildrenCountsUp(cat, jobId, p.children, next);
      var CutAll(children, stages, n) := CutChildren(cat, jobId, p.children, next);
      if IsExchange(p.op) {
        var written := InputOfUnary(engine, NOTHING_RUN, Stripped(p), out);
        outputs := CutChildrenIsComplete(engine, cat, jobId, p.children, next, [written]);
        outputs := CompleteExchange(engine, cat, jobId, p.op, children, stages, n, outputs, written, out);
      } else if p.op.Repartition? {
        outputs := CutChildrenIsComplete(engine, cat, jobId, p.children, next, [out]);
      } else {
        var ins :| DenotesAll(engine, NOTHING_RUN, StrippedAll(p.children), ins) && Applies(engine, p.op, ins, out);
        outputs := CutChildrenIsComplete(engine, cat, jobId, p.children, next, ins);
        assert DenotesAll(engine, Context(outputs, map[]), children, ins);
      }
    }
  }

  /** The stage pushed out below an exchange computes the exchange's input. */
  lemma CompleteExchange(
    engine: Engine, cat: Catalog, jobId: string, op: Operator, children: seq<Plan>, stages: seq<Plan>, n: nat,
    before: map<nat, StageOutput>, written: Table, out: Table)
    returns (outputs: map<nat, StageOutput>)
    requires IsExchange(op) && |children| == 1
    requires Runs(engine, stages, before) && (forall id :: id in before ==> id <= n)
    requires Denotes(engine, Context(before, map[]), children[0], written)
    requires Applies(engine, op, [written], out)
    ensures forall id :: id in outputs ==> id in before || id == n + 1
    ensures Runs(engine, CutRoot(cat, jobId, op, children, stages, n).stages, outputs)
    ensures Denotes(engine, Context(outputs, map[]), CutRoot(cat, jobId, op, children, stages, n).plan, out)
  {
    var partitioning := if op.Repartition? then Some(op.partitioning) else None;
    var writer := CreateShuffleWriter(jobId, n + 1, children[0], partitioning);
    outputs := AddStage(engine, stages, before, writer, written);
    if !op.Repartition? {
      var q := CutRoot(cat, jobId, op, children, stages, n).plan;
      assert Denotes(engine, Context(outputs, map[]), q.children[0], written);
      DenotesUnary(engine, Context(outputs, map[]), q, written, out);
    }
  }

  lemma {:induction false} CutChildrenIsComplete(
    engine: Engine, cat: Catalog, jobId: string, ps: seq<Plan>, next: nat, outs: seq<Table>)
    returns (outputs: map<nat, StageOutput>)
    requires forall i :: 0 <= i < |ps| ==> WellFormed(ps[i]) && IsQuery(ps[i])
    requires CutChildren(cat, jobId, ps, next).CutAll?
    requires DenotesAll(engine, NOTHING_RUN, StrippedAll(ps), outs)
    ensures Within(outputs, next, CutChildren(cat, jobId, ps, next).nextStageId)
    ensures Runs(engine, CutChildren(cat, jobId, ps, next).stages, outputs)
    ensures DenotesAll(engine, Context(outputs, map[]), CutChildren(cat, jobId, ps, next).plans, outs)
    decreases ps, 0
  {
    if ps == [] {
      outputs := map[];
    } else {
      var init, last := ps[..|ps| - 1], |ps| - 1;
      DenotesAllSnoc(engine, NOTHING_RUN, StrippedAll(init), Stripped(ps[last]), outs);
      var CutAll(plans, stages, n) := CutChildren(cat, jobId, init, next);
      var left := CutChildrenIsComplete(engine, cat, jobId, init, next, outs[..last]);
      var Cut(plan, stages', n') := CutPlan(cat, jobId, ps[last], n);
      var right := CutIsComplete(engine, cat, jobId, ps[last], n, outs[last]);
      CutChildrenCountsUp(cat, jobId, init, next);
      CutCountsUp(cat, jobId, ps[last], n);
      CompleteTogether(engine, stages, left, plans, next, n, stages', right, plan, n', outs);
      outputs := left + right;
    }
  }

  /** The stages have run and the last of them computed out. */
  ghost predicate EndsWith(engine: Engine, stages: seq<Plan>, outputs: map<nat, StageOutput>, out: Table) {
    && stages != []
    && Runs(engine, stages, outputs)
    && outputs[stages[|stages| - 1].op.stageId].written == out
  }

  /**
   For every query that can be planned, the possible results of running its stages are exactly the
   possible results of the query, repartitions other than by hash left aside.
   */
  lemma StagesComputeTheQuery(engine: Engine, cat: Catalog, jobId: string, p: Plan, next: nat, out: Table)
    requires WellFormed(p) && IsQuery(p) && HasNoWindowAgg(p)
    ensures StagesOf(cat, jobId, p, next).Success?
    ensures Denotes(engine, NOTHING_RUN, Stripped(p), out) <==>
              exists outputs :: EndsWith(engine, StagesOf(cat, jobId, p, next).value, outputs, out)
  {
    CutSucceedsIff(cat, jobId, p, next);
    var Cut(q, stages, n) := CutPlan(cat, jobId, p, next);
    var writer := CreateShuffleWriter(jobId, n + 1, q, None);
    var all := stages + [writer];
    if Denotes(engine, NOTHING_RUN, Stripped(p), out) {
      var before := CutIsComplete(engine, cat, jobId, p, next, out);
      CutCountsUp(cat, jobId, p, next);
      var outputs := AddStage(engine, stages, before, writer, out);
      assert EndsWith(engine, all, outputs, out);
    }
    if outputs :| EndsWith(engine, all, outputs, out) {
      LastStageDenotes(engine, stages, writer, outputs, out);
      CutIsSound(engine, cat, jobId, p, next, outputs, out);
    }
  }

  lemma LastStageDenotes(
    engine: Engine, stages: seq<Plan>, writer: Plan, outputs: map<nat, StageOutput>, out: Table)
    requires |writer.children| == 1 && EndsWith(engine, stages + [writer], outputs, out)
    ensures Runs(engine, stages, outputs)
    ensures Denotes(engine, Context(outputs, map[]), writer.children[0], out)
  {
    RunsConcat(engine, stages, [writer], outputs);
    assert StageRuns(engine, [writer][0], outputs);
    var input := InputOfUnary(engine, Context(outputs, map[]), writer, out);
  }

  /** In particular for the plans of Ballista sessions, which repartition by hash only. */
  lemma StagesComputeTheHashQuery(engine: Engine, cat: Catalog, jobId: string, p: Plan, next: nat, out: Table)
    requires WellFormed(p) && IsQuery(p) && HasNoWindowAgg(p) && RepartitionsByHashOnly(p)
    ensures StagesOf(cat, jobId, p, next).Success?
    ensures Denotes(engine, NOTHING_RUN, p, out) <==>
              exists outputs :: EndsWith(engine, StagesOf(cat, jobId, p, next).value, outputs, out)
  {
    StagesComputeTheQuery(engine, cat, jobId, p, next, out);
    StrippedIsIdentityIff(p);
  }
}
