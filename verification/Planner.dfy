/**
 The distributed planner: it cuts a physical plan into query stages at every exchange.

 `DistributedPlanner` is the planner with its mutable stage counter; `CutPlan` is the function it
 computes.
 */
module Planner {
  import opened Wrappers
  import opened Plans

  datatype CutResult =
    | Cut(plan: Plan, stages: seq<Plan>, nextStageId: nat)
    | NotImplemented(window: string, nextStageId: nat)

  datatype CutForest =
    | CutAll(plans: seq<Plan>, stages: seq<Plan>, nextStageId: nat)
    | CutFailed(window: string, nextStageId: nat)

  function CreateShuffleWriter(
    jobId: string, stageId: nat, plan: Plan, partitioning: Option<Partitioning>): Plan
  {
    Plan(ShuffleWriter(jobId, stageId, partitioning), [plan])
  }

  function CreateUnresolvedShuffle(cat: Catalog, writer: Plan): Plan
    requires writer.op.ShuffleWriter?
  {
    Plan(UnresolvedShuffle(writer.op.stageId, SchemaOf(cat, writer), PartitionCount(cat, writer)), [])
  }

  /** The plan that stays behind and the stages cut out of p, numbered from next + 1. */
  function CutPlan(cat: Catalog, jobId: string, p: Plan, next: nat): CutResult
    decreases p, 1
  {
    if p.children == [] then
      Cut(p, [], next)
    else
      match CutChildren(cat, jobId, p.children, next)
      case CutFailed(window, n) => NotImplemented(window, n)
      case CutAll(children, stages, n) => CutRoot(cat, jobId, p.op, children, stages, n)
  }

  /** The trees of a forest are cut one after the other, from left to right. */
  function CutChildren(cat: Catalog, jobId: string, ps: seq<Plan>, next: nat): (r: CutForest)
    ensures r.CutAll? ==> |r.plans| == |ps|
    decreases ps, 0
  {
    if ps == [] then
      CutAll([], [], next)
    else
      match CutChildren(cat, jobId, ps[..|ps| - 1], next)
      case CutFailed(window, n) => CutFailed(window, n)
      case CutAll(plans, stages, n) =>
        match CutPlan(cat, jobId, ps[|ps| - 1], n)
        case NotImplemented(window, n') => CutFailed(window, n')
        case Cut(plan, stages', n') => CutAll(plans + [plan], stages + stages', n')
  }

  /** What becomes of a node once its children have been cut. */
  function CutRoot(
    cat: Catalog, jobId: string, op: Operator, children: seq<Plan>, stages: seq<Plan>, next: nat): CutResult
    requires children != []
  {
    match op
    case CoalescePartitions =>
      var writer := CreateShuffleWriter(jobId, next + 1, children[0], None);
      Cut(Plan(op, [CreateUnresolvedShuffle(cat, writer)]), stages + [writer], next + 1)
    case SortPreservingMerge(_) =>
      var writer := CreateShuffleWriter(jobId, next + 1, children[0], None);
      Cut(Plan(op, [CreateUnresolvedShuffle(cat, writer)]), stages + [writer], next + 1)
    case Repartition(Hash(exprs, count)) =>
      var writer := CreateShuffleWriter(jobId, next + 1, children[0], Some(Hash(exprs, count)));
      Cut(CreateUnresolvedShuffle(cat, writer), stages + [writer], next + 1)
    case Repartition(_) => Cut(children[0], stages, next)
    case WindowAgg(window) => NotImplemented(window, next)
    case _ => Cut(Plan(op, children), stages, next)
  }

  class DistributedPlanner {
    var nextStageId: nat

    constructor ()
      ensures nextStageId == 0
    {
      nextStageId := 0;
    }

    method NextStageId() returns (id: nat)
      modifies this
      ensures nextStageId == old(nextStageId) + 1 && id == nextStageId
    {
      nextStageId := nextStageId + 1;
      id := nextStageId;
    }

    method PlanQueryStagesInternal(cat: Catalog, jobId: string, plan: Plan)
      returns (r: Result<(Plan, seq<Plan>), string>)
      modifies this
      ensures match CutPlan(cat, jobId, plan, old(nextStageId))
              case Cut(q, stages, n) => r == Success((q, stages)) && nextStageId == n
              case NotImplemented(window, n) => r == Failure(window) && nextStageId == n
      decreases plan
    {
      if plan.children == [] {
        return Success((plan, []));
      }
      var stages, children := [], [];
      ghost var first := nextStageId;
      for i := 0 to |plan.children|
        invariant CutChildren(cat, jobId, plan.children[..i], first) == CutAll(children, stages, nextStageId)
      {
        assert plan.children[..i + 1][..i] == plan.children[..i];
        var child := PlanQueryStagesInternal(cat, jobId, plan.children[i]);
        match child {
          case Success((newChild, childStages)) =>
            children := children + [newChild];
            stages := stages + childStages;
          case Failure(window) =>
            CutFailureSpreads(cat, jobId, plan.children, i + 1, first);
            return Failure(window);
        }
      }
      assert plan.children[..|plan.children|] == plan.children;
      match plan.op {
        case CoalescePartitions =>
          var id := NextStageId();
          var writer := CreateShuffleWriter(jobId, id, children[0], None);
          stages := stages + [writer];
          r := Success((Plan(plan.op, [CreateUnresolvedShuffle(cat, writer)]), stages));
        case SortPreservingMerge(_) =>
          var id := NextStageId();
          var writer := CreateShuffleWriter(jobId, id, children[0], None);
          stages := stages + [writer];
          r := Success((Plan(plan.op, [CreateUnresolvedShuffle(cat, writer)]), stages));
        case Repartition(Hash(exprs, count)) =>
          var id := NextStageId();
          var writer := CreateShuffleWriter(jobId, id, children[0], Some(Hash(exprs, count)));
          stages := stages + [writer];
          r := Success((CreateUnresolvedShuffle(cat, writer), stages));
        case Repartition(_) =>
          r := Success((children[0], stages));
        case WindowAgg(window) =>
          r := Failure(window);
        case _ =>
          r := Success((Plan(plan.op, children), stages));
      }
    }

    /** The whole list of stages; the last one computes the query's result. */
    method PlanQueryStages(cat: Catalog, jobId: string, plan: Plan)
      returns (r: Result<seq<Plan>, string>)
      modifies this
      ensures r == StagesOf(cat, jobId, plan, old(nextStageId))
    {
      var internal := PlanQueryStagesInternal(cat, jobId, plan);
      match internal {
        case Success((newPlan, stages)) =>
          var id := NextStageId();
          r := Success(stages + [CreateShuffleWriter(jobId, id, newPlan, None)]);
        case Failure(window) =>
          r := Failure(window);
      }
    }
  }

  function StagesOf(cat: Catalog, jobId: string, p: Plan, next: nat): Result<seq<Plan>, string> {
    match CutPlan(cat, jobId, p, next)
    case NotImplemented(window, _) => Failure(window)
    case Cut(q, stages, n) => Success(stages + [CreateShuffleWriter(jobId, n + 1, q, None)])
  }

  /** Once a child fails, the later ones are not planned. */
  lemma {:induction false} CutFailureSpreads(cat: Catalog, jobId: string, ps: seq<Plan>, k: nat, next: nat)
    requires k <= |ps|
    requires CutChildren(cat, jobId, ps[..k], next).CutFailed?
    ensures CutChildren(cat, jobId, ps, next) == CutChildren(cat, jobId, ps[..k], next)
  {
    if k == |ps| {
      assert ps[..k] == ps;
    } else {
      assert ps[..|ps| - 1][..k] == ps[..k];
      CutFailureSpreads(cat, jobId, ps[..|ps| - 1], k, next);
    }
  }
}
