/**
 Resolving a stage once its inputs have been written, and rolling it back when some are lost.

 `Resolve` and `Rollback` are the tree rewrites; the methods are their loops over children.
 */
module Resolution {
  import opened Wrappers
  import opened Plans
  import opened Exchange

  /** DataFusion's rebuilding of a node; an unresolved shuffle refuses it. */
  function WithNewChildren(p: Plan, children: seq<Plan>): Result<Plan, string> {
    if |children| != |p.children| then Failure("Wrong number of children")
    else if p.op.UnresolvedShuffle? then Failure("UnresolvedShuffleExec does not support with_new_children()")
    else Success(Plan(p.op, children))
  }

  // ---------- Resolving ----------

  function ReaderFor(u: Operator, locations: Locations): Plan
    requires u.UnresolvedShuffle?
  {
    Plan(ShuffleReader(u.stageId, u.schema, RelevantLocations(locations, u.outputPartitionCount)), [])
  }

  function RelevantLocations(locations: Locations, count: nat): (r: seq<seq<PartitionLocation>>)
    ensures |r| == count && forall q :: 0 <= q < count ==> r[q] == LocationsAt(locations, q)
  {
    if count == 0 then [] else RelevantLocations(locations, count - 1) + [LocationsAt(locations, count - 1)]
  }

  function Resolve(p: Plan, locations: map<nat, Locations>): Result<Plan, string>
    decreases p, 2
  {
    match ResolveAll(p.children, locations)
    case Failure(e) => Failure(e)
    case Success(children) => WithNewChildren(p, children)
  }

  function ResolveChild(p: Plan, locations: map<nat, Locations>): Result<Plan, string>
    decreases p, 3
  {
    if !p.op.UnresolvedShuffle? then Resolve(p, locations)
    else if p.op.stageId in locations then Success(ReaderFor(p.op, locations[p.op.stageId]))
    else Failure("Missing partition location. Could not remove unresolved shuffles")
  }

  function ResolveAll(ps: seq<Plan>, locations: map<nat, Locations>): (r: Result<seq<Plan>, string>)
    ensures r.Success? ==> |r.value| == |ps|
    decreases ps, 0
  {
    if ps == [] then Success([])
    else
      match ResolveAll(ps[..|ps| - 1], locations)
      case Failure(e) => Failure(e)
      case Success(init) =>
        match ResolveChild(ps[|ps| - 1], locations)
        case Failure(e) => Failure(e)
        case Success(last) => Success(init + [last])
  }

  lemma {:induction false} ResolveFailureSpreads(ps: seq<Plan>, k: nat, locations: map<nat, Locations>)
    requires k <= |ps| && ResolveAll(ps[..k], locations).Failure?
    ensures ResolveAll(ps, locations) == ResolveAll(ps[..k], locations)
  {
    if k == |ps| {
      assert ps[..k] == ps;
    } else {
      assert ps[..|ps| - 1][..k] == ps[..k];
      ResolveFailureSpreads(ps[..|ps| - 1], k, locations);
    }
  }

  lemma ResolveNext(ps: seq<Plan>, i: nat, locations: map<nat, Locations>, done: seq<Plan>)
    requires i < |ps| && ResolveAll(ps[..i], locations) == Success(done)
    ensures match ResolveChild(ps[i], locations)
            case Failure(e) => ResolveAll(ps, locations) == Failure(e)
            case Success(p) => ResolveAll(ps[..i + 1], locations) == Success(done + [p])
  {
    assert ps[..i + 1][..i] == ps[..i];
    if ResolveChild(ps[i], locations).Failure? {
      ResolveFailureSpreads(ps, i + 1, locations);
    }
  }

  /** One list of locations for every partition; a partition nobody wrote gets an empty one. */
  method CollectRelevant(p: Locations, count: nat) returns (relevantLocations: seq<seq<PartitionLocation>>)
    ensures relevantLocations == RelevantLocations(p, count)
  {
    relevantLocations := [];
    for q := 0 to count
      invariant relevantLocations == RelevantLocations(p, q)
    {
      if q in p {
        relevantLocations := relevantLocations + [p[q]];
      } else {
        relevantLocations := relevantLocations + [[]];
      }
    }
  }

  method RemoveUnresolvedShuffles(stage: Plan, partitionLocations: map<nat, Locations>)
    returns (r: Result<Plan, string>)
    ensures r == Resolve(stage, partitionLocations)
    decreases stage
  {
    var newChildren: seq<Plan> := [];
    for i := 0 to |stage.children|
      invariant ResolveAll(stage.children[..i], partitionLocations) == Success(newChildren)
    {
      var child := stage.children[i];
      ResolveNext(stage.children, i, partitionLocations, newChildren);
      if child.op.UnresolvedShuffle? {
        if child.op.stageId !in partitionLocations {
          return Failure("Missing partition location. Could not remove unresolved shuffles");
        }
        var relevantLocations :=
          CollectRelevant(partitionLocations[child.op.stageId], child.op.outputPartitionCount);
        newChildren := newChildren + [Plan(ShuffleReader(child.op.stageId, child.op.schema, relevantLocations), [])];
      } else {
        var newChild := RemoveUnresolvedShuffles(child, partitionLocations);
        if newChild.Failure? {
          return newChild;
        }
        newChildren := newChildren + [newChild.value];
      }
    }
    assert stage.children[..|stage.children|] == stage.children;
    r := WithNewChildren(stage, newChildren);
  }

  // ---------- Rolling back ----------

  function Rollback(p: Plan): Result<Plan, string>
    decreases p, 2
  {
    match RollbackAll(p.children)
    case Failure(e) => Failure(e)
    case Success(children) => WithNewChildren(p, children)
  }

  function RollbackChild(p: Plan): Result<Plan, string>
    decreases p, 3
  {
    if p.op.ShuffleReader?
    then Success(Plan(UnresolvedShuffle(p.op.stageId, p.op.schema, |p.op.partition|), []))
    else Rollback(p)
  }

  function RollbackAll(ps: seq<Plan>): (r: Result<seq<Plan>, string>)
    ensures r.Success? ==> |r.value| == |ps|
    decreases ps, 0
  {
    if ps == [] then Success([])
    else
      match RollbackAll(ps[..|ps| - 1])
      case Failure(e) => Failure(e)
      case Success(init) =>
        match RollbackChild(ps[|ps| - 1])
        case Failure(e) => Failure(e)
        case Success(last) => Success(init + [last])
  }

  lemma {:induction false} RollbackFailureSpreads(ps: seq<Plan>, k: nat)
    requires k <= |ps| && RollbackAll(ps[..k]).Failure?
    ensures RollbackAll(ps) == RollbackAll(ps[..k])
  {
    if k == |ps| {
      assert ps[..k] == ps;
    } else {
      assert ps[..|ps| - 1][..k] == ps[..k];
      RollbackFailureSpreads(ps[..|ps| - 1], k);
    }
  }

  method RollbackResolvedShuffles(stage: Plan) returns (r: Result<Plan, string>)
    ensures r == Rollback(stage)
    decreases stage
  {
    var newChildren: seq<Plan> := [];
    for i := 0 to |stage.children|
      invariant RollbackAll(stage.children[..i]) == Success(newChildren)
    {
      var child := stage.children[i];
      assert stage.children[..i + 1][..i] == stage.children[..i];
      if child.op.ShuffleReader? {
        var unresolved := UnresolvedShuffle(child.op.stageId, child.op.schema, |child.op.partition|);
        newChildren := newChildren + [Plan(unresolved, [])];
      } else {
        var newChild := RollbackResolvedShuffles(child);
        if newChild.Failure? {
          RollbackFailureSpreads(stage.children, i + 1);
          return newChild;
        }
        newChildren := newChildren + [newChild.value];
      }
    }
    assert stage.children[..|stage.children|] == stage.children;
    r := WithNewChildren(stage, newChildren);
  }

  // ---------- When resolving succeeds ----------

  /** The location map has an entry for every stage the plan reads. */
  predicate Located(p: Plan, locations: map<nat, Locations>) {
    forall u :: u in FindUnresolvedShuffles(p) ==> u.stageId in locations
  }

  lemma {:induction false} ResolveSucceedsIff(p: Plan, locations: map<nat, Locations>)
    requires WellFormed(p)
    ensures Resolve(p, locations).Success? <==> !p.op.UnresolvedShuffle? && Located(p, locations)
    decreases p, 2
  {
    if !p.op.UnresolvedShuffle? {
      ResolveAllSucceedsIff(p.children, locations);
    }
  }

  lemma {:induction false} ResolveAllSucceedsIff(ps: seq<Plan>, locations: map<nat, Locations>)
    requires forall i :: 0 <= i < |ps| ==> WellFormed(ps[i])
    ensures ResolveAll(ps, locations).Success? <==>
              forall u :: u in FindUnresolvedInAll(ps) ==> u.stageId in locations
    decreases ps, 0
  {
    if ps != [] {
      var init, last := ps[..|ps| - 1], ps[|ps| - 1];
      ResolveAllSucceedsIff(init, locations);
      if !last.op.UnresolvedShuffle? {
        ResolveSucceedsIff(last, locations);
      }
      var us, vs := FindUnresolvedInAll(init), FindUnresolvedShuffles(last);
      assert forall u :: u in us + vs <==> u in us || u in vs;
    }
  }

  // ---------- The round trip ----------

  /** Resolving leaves no unresolved shuffle, and rolling back restores the stage as it was. */
  lemma {:induction false} RoundTrip(p: Plan, locations: map<nat, Locations>)
    requires WellFormed(p) && HasNoReader(p)
    requires Resolve(p, locations).Success?
    ensures FindUnresolvedShuffles(Resolve(p, locations).value) == []
    ensures Rollback(Resolve(p, locations).value) == Success(p)
    decreases p, 2
  {
    RoundTripAll(p.children, locations);
    var children := ResolveAll(p.children, locations).value;
    assert Resolve(p, locations).value == Plan(p.op, children);
  }

  lemma {:induction false} RoundTripAll(ps: seq<Plan>, locations: map<nat, Locations>)
    requires forall i :: 0 <= i < |ps| ==> WellFormed(ps[i]) && HasNoReader(ps[i])
    requires ResolveAll(ps, locations).Success?
    ensures FindUnresolvedInAll(ResolveAll(ps, locations).value) == []
    ensures RollbackAll(ResolveAll(ps, locations).value) == Success(ps)
    decreases ps, 0
  {
    if ps != [] {
      var init, last := ps[..|ps| - 1], ps[|ps| - 1];
      RoundTripAll(init, locations);
      var qs := ResolveAll(ps, locations).value;
      assert qs[..|qs| - 1] == ResolveAll(init, locations).value;
      assert init + [last] == ps;
      if last.op.UnresolvedShuffle? {
        assert FindUnresolvedShuffles(qs[|qs| - 1]) == [];
      } else {
        RoundTrip(last, locations);
      }
    }
  }

  /** A resolved stage has the schema and the partition count of the unresolved one. */
  lemma {:induction false} ResolveKeepsShape(cat: Catalog, p: Plan, locations: map<nat, Locations>)
    requires Resolve(p, locations).Success?
    ensures SameShape(cat, Resolve(p, locations).value, p)
    decreases p, 2
  {
    ResolveAllKeepsShape(cat, p.children, locations);
    NodeShape(cat, p.op, ResolveAll(p.children, locations).value, p.children);
  }

  lemma {:induction false} ResolveAllKeepsShape(cat: Catalog, ps: seq<Plan>, locations: map<nat, Locations>)
    requires ResolveAll(ps, locations).Success?
    ensures AllSameShape(cat, ResolveAll(ps, locations).value, ps)
    decreases ps, 0
  {
    if ps != [] {
      ResolveAllKeepsShape(cat, ps[..|ps| - 1], locations);
      if !ps[|ps| - 1].op.UnresolvedShuffle? {
        ResolveKeepsShape(cat, ps[|ps| - 1], locations);
      }
    }
  }
}
