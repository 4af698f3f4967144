/**
 What every list of stages looks like: how the stages are numbered, which stage reads which, and that
 each stage has a single partitioning.

 A cut is described by the forest that stays behind, the stages cut out of it, and the numbers
 (from, to] those stages use. The descriptions are closed under the three moves of the planner:
 putting two cuts side by side, putting an operator on top, and pushing a tree out as a new stage.
 */
module StageStructure {
  import opened Wrappers
  import opened Plans
  import opened Planner

  // ---------- Success ----------

  /** Planning fails exactly on the plans with a window aggregate, wherever it stands. */
  lemma {:induction false} CutSucceedsIff(cat: Catalog, jobId: string, p: Plan, next: nat)
    requires WellFormed(p)
    ensures CutPlan(cat, jobId, p, next).Cut? <==> HasNoWindowAgg(p)
    decreases p, 1
  {
    if p.children != [] {
      CutChildrenSucceedsIff(cat, jobId, p.children, next);
    }
  }

  lemma {:induction false} CutChildrenSucceedsIff(cat: Catalog, jobId: string, ps: seq<Plan>, next: nat)
    requires forall i :: 0 <= i < |ps| ==> WellFormed(ps[i])
    ensures CutChildren(cat, jobId, ps, next).CutAll? <==> forall i :: 0 <= i < |ps| ==> HasNoWindowAgg(ps[i])
    decreases ps, 0
  {
    if ps != [] {
      var init, last := ps[..|ps| - 1], ps[|ps| - 1];
      CutChildrenSucceedsIff(cat, jobId, init, next);
      match CutChildren(cat, jobId, init, next) {
        case CutFailed(_, _) =>
          var i :| 0 <= i < |init| && !HasNoWindowAgg(init[i]);
          assert !HasNoWindowAgg(ps[i]);
        case CutAll(_, _, n) =>
          CutSucceedsIff(cat, jobId, last, n);
          assert forall i :: 0 <= i < |init| ==> ps[i] == init[i];
      }
    }
  }

  predicate OccursInAll(ps: seq<Plan>, op: Operator) {
    exists i :: 0 <= i < |ps| && Occurs(ps[i], op)
  }

  /** The window aggregate that planning fails on is one of the plan. */
  lemma {:induction false} FailureNamesWindow(cat: Catalog, jobId: string, p: Plan, next: nat)
    requires CutPlan(cat, jobId, p, next).NotImplemented?
    ensures Occurs(p, WindowAgg(CutPlan(cat, jobId, p, next).window))
    decreases p, 1
  {
    if CutChildren(cat, jobId, p.children, next).CutFailed? {
      ForestFailureNamesWindow(cat, jobId, p.children, next);
    }
  }

  lemma {:induction false} ForestFailureNamesWindow(cat: Catalog, jobId: string, ps: seq<Plan>, next: nat)
    requires CutChildren(cat, jobId, ps, next).CutFailed?
    ensures OccursInAll(ps, WindowAgg(CutChildren(cat, jobId, ps, next).window))
    decreases ps, 0
  {
    var last := |ps| - 1;
    var before := CutChildren(cat, jobId, ps[..last], next);
    if before.CutFailed? {
      ForestFailureNamesWindow(cat, jobId, ps[..last], next);
      var i :| 0 <= i < last && Occurs(ps[..last][i], WindowAgg(before.window));
      assert Occurs(ps[i], WindowAgg(before.window));
    } else {
      FailureNamesWindow(cat, jobId, ps[last], before.nextStageId);
    }
  }

  // ---------- Numbering ----------

  /** The exchanges of a plan: the places where the partitioning changes. */
  function Exchanges(p: Plan): nat {
    (if IsExchange(p.op) then 1 else 0) + ExchangesInAll(p.children)
  }

  function ExchangesInAll(ps: seq<Plan>): nat {
    if ps == [] then 0 else ExchangesInAll(ps[..|ps| - 1]) + Exchanges(ps[|ps| - 1])
  }

  /** The stages are shuffle writers of this job numbered from + 1, from + 2, ... in list order. */
  predicate Numbered(jobId: string, stages: seq<Plan>, from: nat, to: nat) {
    && to == from + |stages|
    && forall i :: 0 <= i < |stages| ==>
         && stages[i].op.ShuffleWriter?
         && |stages[i].children| == 1
         && stages[i].op.jobId == jobId
         && stages[i].op.stageId == from + i + 1
  }

  // ---------- References ----------

  /** u stands for the output of the stage s: right number, right schema, right partition count. */
  predicate Names(cat: Catalog, u: Operator, s: Plan) {
    && u.UnresolvedShuffle?
    && s.op.ShuffleWriter?
    && u.stageId == s.op.stageId
    && u.schema == SchemaOf(cat, s)
    && u.outputPartitionCount == PartitionCount(cat, s)
  }

  predicate NamesSome(cat: Catalog, u: Operator, stages: seq<Plan>) {
    exists i :: 0 <= i < |stages| && Names(cat, u, stages[i])
  }

  predicate NamesAll(cat: Catalog, us: seq<Operator>, stages: seq<Plan>) {
    forall u :: u in us ==> NamesSome(cat, u, stages)
  }

  /** A stage only reads stages before it. */
  predicate ReadsBackwards(cat: Catalog, stages: seq<Plan>) {
    forall i :: 0 <= i < |stages| ==> NamesAll(cat, FindUnresolvedShuffles(stages[i]), stages[..i])
  }

  /** Every reference names one of the stages, in a stage one before it. */
  predicate Linked(cat: Catalog, plans: seq<Plan>, stages: seq<Plan>) {
    NamesAll(cat, FindUnresolvedInAll(plans), stages) && ReadsBackwards(cat, stages)
  }

  /** How many of the given unresolved shuffles read stage n. */
  function Reads(us: seq<Operator>, n: nat): nat
    requires forall u :: u in us ==> u.UnresolvedShuffle?
  {
    if us == [] then 0 else Reads(us[..|us| - 1], n) + (if us[|us| - 1].stageId == n then 1 else 0)
  }

  /** How many places of a forest read stage n. */
  function Readers(ps: seq<Plan>, n: nat): nat {
    Reads(FindUnresolvedInAll(ps), n)
  }

  /** Every stage is read exactly once, by the remaining plans or by another stage; nothing else is. */
  ghost predicate ReadOnce(plans: seq<Plan>, stages: seq<Plan>, from: nat, to: nat) {
    forall n: nat :: Readers(plans, n) + Readers(stages, n) == if from < n <= to then 1 else 0
  }

  /** Every stage but the last is read exactly once, by another stage; nothing else is read. */
  ghost predicate AllButLastRead(stages: seq<Plan>, from: nat) {
    forall n: nat :: Readers(stages, n) == if from < n < from + |stages| then 1 else 0
  }

  // ---------- Shape ----------

  /** No repartition is left, and a coalesce or merge reads a shuffle: one partitioning below it. */
  predicate SinglePartitioning(p: Plan) {
    && !p.op.Repartition?
    && (p.op.CoalescePartitions? || p.op.SortPreservingMerge? ==>
          |p.children| == 1 && p.children[0].op.UnresolvedShuffle?)
    && forall i :: 0 <= i < |p.children| ==> SinglePartitioning(p.children[i])
  }

  predicate AllSinglePartitioning(ps: seq<Plan>) {
    forall i :: 0 <= i < |ps| ==> SinglePartitioning(ps[i])
  }

  predicate AllWellFormed(ps: seq<Plan>) {
    forall i :: 0 <= i < |ps| ==> WellFormed(ps[i])
  }

  predicate AllUnresolved(ps: seq<Plan>) {
    forall i :: 0 <= i < |ps| ==> HasNoReader(ps[i])
  }

  // ---------- The description and its closure ----------

  ghost predicate GoodCut(cat: Catalog, jobId: string, plans: seq<Plan>, stages: seq<Plan>, from: nat, to: nat) {
    && Numbered(jobId, stages, from, to)
    && Linked(cat, plans, stages)
    && ReadOnce(plans, stages, from, to)
    && AllSinglePartitioning(plans) && AllSinglePartitioning(stages)
    && AllWellFormed(plans) && AllWellFormed(stages)
    && AllUnresolved(plans) && AllUnresolved(stages)
  }

  lemma {:induction false} ReadsConcat(us: seq<Operator>, vs: seq<Operator>, n: nat)
    requires forall u :: u in us ==> u.UnresolvedShuffle?
    requires forall u :: u in vs ==> u.UnresolvedShuffle?
    ensures Reads(us + vs, n) == Reads(us, n) + Reads(vs, n)
  {
    if vs == [] {
      assert us + vs == us;
    } else {
      assert (us + vs)[..|us + vs| - 1] == us + vs[..|vs| - 1];
      ReadsConcat(us, vs[..|vs| - 1], n);
    }
  }

  lemma ReadersConcat(ps: seq<Plan>, qs: seq<Plan>, n: nat)
    ensures Readers(ps + qs, n) == Readers(ps, n) + Readers(qs, n)
  {
    FindUnresolvedConcat(ps, qs);
    ReadsConcat(FindUnresolvedInAll(ps), FindUnresolvedInAll(qs), n);
  }

  /** A writer reads what its input reads. */
  lemma ReadersOfWriter(writer: Plan, p: Plan, n: nat)
    requires writer.op.ShuffleWriter? && writer.children == [p]
    ensures Readers([writer], n) == Readers([p], n)
  {
    FindUnresolvedSingle(writer);
  }

  lemma ReadersOfReference(ref: Plan, n: nat)
    requires ref.op.UnresolvedShuffle?
    ensures Readers([ref], n) == if n == ref.op.stageId then 1 else 0
  {
    FindUnresolvedSingle(ref);
    var us := [ref.op];
    assert FindUnresolvedInAll([ref]) == us;
    assert us[..0] == [];
    assert Reads(us, n) == Reads(us[..0], n) + (if us[0].stageId == n then 1 else 0);
  }

  lemma ReadOnceBeside(
    ps: seq<Plan>, ss: seq<Plan>, qs: seq<Plan>, ts: seq<Plan>, from: nat, mid: nat, to: nat)
    requires from <= mid <= to
    requires ReadOnce(ps, ss, from, mid) && ReadOnce(qs, ts, mid, to)
    ensures ReadOnce(ps + qs, ss + ts, from, to)
  {
    forall n: nat
      ensures Readers(ps + qs, n) + Readers(ss + ts, n) == if from < n <= to then 1 else 0
    {
      ReadersConcat(ps, qs, n);
      ReadersConcat(ss, ts, n);
    }
  }

  lemma ReadOncePushedOut(
    p: Plan, stages: seq<Plan>, from: nat, to: nat, writer: Plan, ref: Plan)
    requires from <= to && ReadOnce([p], stages, from, to)
    requires writer.op.ShuffleWriter? && writer.children == [p]
    requires ref.op.UnresolvedShuffle? && ref.op.stageId == to + 1
    ensures ReadOnce([ref], stages + [writer], from, to + 1)
  {
    forall n: nat
      ensures Readers([ref], n) + Readers(stages + [writer], n) == if from < n <= to + 1 then 1 else 0
    {
      ReadersConcat(stages, [writer], n);
      ReadersOfWriter(writer, p, n);
      ReadersOfReference(ref, n);
    }
  }

  lemma NamesSomeInLarger(cat: Catalog, u: Operator, small: seq<Plan>, large: seq<Plan>, at: nat)
    requires at + |small| <= |large| && large[at..at + |small|] == small
    requires NamesSome(cat, u, small)
    ensures NamesSome(cat, u, large)
  {
    var i :| 0 <= i < |small| && Names(cat, u, small[i]);
    assert large[at + i] == small[i];
  }

  lemma NamedBeside(cat: Catalog, us: seq<Operator>, ss: seq<Plan>, vs: seq<Operator>, ts: seq<Plan>)
    requires NamesAll(cat, us, ss) && NamesAll(cat, vs, ts)
    ensures NamesAll(cat, us + vs, ss + ts)
  {
    var all := ss + ts;
    forall u | u in us + vs ensures NamesSome(cat, u, all) {
      if u in us {
        NamesSomeInLarger(cat, u, ss, all, 0);
      } else {
        NamesSomeInLarger(cat, u, ts, all, |ss|);
      }
    }
  }

  lemma ReadsBackwardsBeside(cat: Catalog, ss: seq<Plan>, ts: seq<Plan>)
    requires ReadsBackwards(cat, ss) && ReadsBackwards(cat, ts)
    ensures ReadsBackwards(cat, ss + ts)
  {
    var all := ss + ts;
    forall i | 0 <= i < |all| ensures NamesAll(cat, FindUnresolvedShuffles(all[i]), all[..i]) {
      if i < |ss| {
        assert all[i] == ss[i] && all[..i] == ss[..i];
      } else {
        var k := i - |ss|;
        assert all[i] == ts[k] && all[..i] == ss + ts[..k];
        NamedBeside(cat, [], ss, FindUnresolvedShuffles(ts[k]), ts[..k]);
        assert [] + FindUnresolvedShuffles(ts[k]) == FindUnresolvedShuffles(ts[k]);
      }
    }
  }

  lemma LinkedBeside(cat: Catalog, ps: seq<Plan>, ss: seq<Plan>, qs: seq<Plan>, ts: seq<Plan>)
    requires Linked(cat, ps, ss) && Linked(cat, qs, ts)
    ensures Linked(cat, ps + qs, ss + ts)
  {
    FindUnresolvedConcat(ps, qs);
    NamedBeside(cat, FindUnresolvedInAll(ps), ss, FindUnresolvedInAll(qs), ts);
    ReadsBackwardsBeside(cat, ss, ts);
  }

  /** Two cuts side by side. */
  lemma Beside(
    cat: Catalog, jobId: string,
    ps: seq<Plan>, ss: seq<Plan>, qs: seq<Plan>, ts: seq<Plan>, from: nat, mid: nat, to: nat)
    requires GoodCut(cat, jobId, ps, ss, from, mid) && GoodCut(cat, jobId, qs, ts, mid, to)
    ensures GoodCut(cat, jobId, ps + qs, ss + ts, from, to)
  {
    ReadOnceBeside(ps, ss, qs, ts, from, mid, to);
    LinkedBeside(cat, ps, ss, qs, ts);
  }

  /** An operator on top of the remaining trees. */
  lemma OnTop(cat: Catalog, jobId: string, op: Operator, ps: seq<Plan>, stages: seq<Plan>, from: nat, to: nat)
    requires GoodCut(cat, jobId, ps, stages, from, to)
    requires !IsShuffle(op) && SinglePartitioning(Plan(op, ps)) && WellFormed(Plan(op, ps))
    ensures GoodCut(cat, jobId, [Plan(op, ps)], stages, from, to)
  {
    FindUnresolvedSingle(Plan(op, ps));
    assert FindUnresolvedInAll([Plan(op, ps)]) == FindUnresolvedInAll(ps);
  }

  lemma LinkedPushedOut(cat: Catalog, p: Plan, stages: seq<Plan>, writer: Plan)
    requires Linked(cat, [p], stages)
    requires writer.op.ShuffleWriter? && writer.children == [p]
    ensures Linked(cat, [CreateUnresolvedShuffle(cat, writer)], stages + [writer])
  {
    var ref := CreateUnresolvedShuffle(cat, writer);
    var all := stages + [writer];
    FindUnresolvedSingle(ref);
    assert Names(cat, ref.op, all[|stages|]);
    forall i, u | 0 <= i < |all| && u in FindUnresolvedShuffles(all[i])
      ensures NamesSome(cat, u, all[..i])
    {
      if i < |stages| {
        assert all[i] == stages[i] && all[..i] == stages[..i];
      } else {
        assert all[..i] == stages;
      }
    }
  }

  /** The remaining tree becomes a stage of its own and leaves a reference behind. */
  lemma PushedOut(
    cat: Catalog, jobId: string, p: Plan, stages: seq<Plan>, from: nat, to: nat, partitioning: Option<Partitioning>)
    requires GoodCut(cat, jobId, [p], stages, from, to)
    ensures var writer := CreateShuffleWriter(jobId, to + 1, p, partitioning);
            GoodCut(cat, jobId, [CreateUnresolvedShuffle(cat, writer)], stages + [writer], from, to + 1)
  {
    var writer := CreateShuffleWriter(jobId, to + 1, p, partitioning);
    ReadOncePushedOut(p, stages, from, to, writer, CreateUnresolvedShuffle(cat, writer));
    LinkedPushedOut(cat, p, stages, writer);
    assert [p][0] == p;
  }

  lemma ReadButLast(ref: Plan, stages: seq<Plan>, from: nat, to: nat)
    requires ref.op.UnresolvedShuffle? && ref.op.stageId == to == from + |stages|
    requires ReadOnce([ref], stages, from, to)
    ensures AllButLastRead(stages, from)
  {
    forall n: nat ensures Readers(stages, n) == if from < n < from + |stages| then 1 else 0 {
      ReadersOfReference(ref, n);
    }
  }

  // ---------- The theorems ----------

  /** A leaf that reads no stage. */
  lemma Leaf(cat: Catalog, jobId: string, p: Plan, next: nat)
    requires p.children == [] && !IsShuffle(p.op) && SinglePartitioning(p) && WellFormed(p)
    ensures GoodCut(cat, jobId, [p], [], next, next)
  {
    FindUnresolvedSingle(p);
  }

  /** The planner's treatment of a node keeps the description. */
  lemma CutRootIsGood(
    cat: Catalog, jobId: string, op: Operator, children: seq<Plan>, stages: seq<Plan>, from: nat, to: nat)
    requires children != [] && (IsUnary(op) ==> |children| == 1) && !IsShuffle(op)
    requires GoodCut(cat, jobId, children, stages, from, to)
    requires CutRoot(cat, jobId, op, children, stages, to).Cut?
    ensures var r := CutRoot(cat, jobId, op, children, stages, to);
            && GoodCut(cat, jobId, [r.plan], r.stages, from, r.nextStageId)
            && |r.stages| == |stages| + if IsExchange(op) then 1 else 0
  {
    if IsExchange(op) {
      assert children == [children[0]];
      var partitioning := if op.Repartition? then Some(op.partitioning) else None;
      PushedOut(cat, jobId, children[0], stages, from, to, partitioning);
      if !op.Repartition? {
        var writer := CreateShuffleWriter(jobId, to + 1, children[0], None);
        OnTop(cat, jobId, op, [CreateUnresolvedShuffle(cat, writer)], stages + [writer], from, to + 1);
      }
    } else if op.Repartition? {
      assert children == [children[0]];
    } else {
      OnTop(cat, jobId, op, children, stages, from, to);
    }
  }

  lemma {:induction false} CutIsGood(cat: Catalog, jobId: string, p: Plan, next: nat)
    requires WellFormed(p) && IsQuery(p)
    requires CutPlan(cat, jobId, p, next).Cut?
    ensures var r := CutPlan(cat, jobId, p, next);
            && GoodCut(cat, jobId, [r.plan], r.stages, next, r.nextStageId)
            && |r.stages| == Exchanges(p)
    decreases p, 1
  {
    if p.children == [] {
      Leaf(cat, jobId, p, next);
    } else {
      CutChildrenIsGood(cat, jobId, p.children, next);
      var CutAll(children, stages, n) := CutChildren(cat, jobId, p.children, next);
      CutRootIsGood(cat, jobId, p.op, children, stages, next, n);
    }
  }

  lemma {:induction false} CutChildrenIsGood(cat: Catalog, jobId: string, ps: seq<Plan>, next: nat)
    requires AllWellFormed(ps) && forall i :: 0 <= i < |ps| ==> IsQuery(ps[i])
    requires CutChildren(cat, jobId, ps, next).CutAll?
    ensures var r := CutChildren(cat, jobId, ps, next);
            && GoodCut(cat, jobId, r.plans, r.stages, next, r.nextStageId)
            && |r.stages| == ExchangesInAll(ps)
    decreases ps, 0
  {
    if ps != [] {
      var init := ps[..|ps| - 1];
      CutChildrenIsGood(cat, jobId, init, next);
      var CutAll(plans, stages, n) := CutChildren(cat, jobId, init, next);
      CutIsGood(cat, jobId, ps[|ps| - 1], n);
      var Cut(plan, stages', n') := CutPlan(cat, jobId, ps[|ps| - 1], n);
      Beside(cat, jobId, plans, stages, [plan], stages', next, n, n');
    }
  }

  lemma WholeCutIsGood(cat: Catalog, jobId: string, q: Plan, stages: seq<Plan>, next: nat, n: nat)
    requires GoodCut(cat, jobId, [q], stages, next, n)
    ensures var all := stages + [CreateShuffleWriter(jobId, n + 1, q, None)];
            && Numbered(jobId, all, next, next + |all|) && Linked(cat, [], all) && AllButLastRead(all, next)
            && AllSinglePartitioning(all) && AllUnresolved(all) && AllWellFormed(all)
  {
    var writer := CreateShuffleWriter(jobId, n + 1, q, None);
    PushedOut(cat, jobId, q, stages, next, n, None);
    ReadButLast(CreateUnresolvedShuffle(cat, writer), stages + [writer], next, n + 1);
  }

  /**
   The stages of a query: there is one per exchange plus the final one; they are numbered in list
   order; a stage reads only earlier ones, with the schema and partition count those write; every
   stage but the last is read exactly once and the last never; each has one partitioning.
   */
  lemma StagesAreWellStructured(cat: Catalog, jobId: string, p: Plan, next: nat)
    requires WellFormed(p) && IsQuery(p)
    ensures StagesOf(cat, jobId, p, next).Success? <==> HasNoWindowAgg(p)
    ensures StagesOf(cat, jobId, p, next).Success? ==>
              var stages := StagesOf(cat, jobId, p, next).value;
              && |stages| == 1 + Exchanges(p)
              && Numbered(jobId, stages, next, next + |stages|)
              && Linked(cat, [], stages)
              && AllButLastRead(stages, next)
              && AllSinglePartitioning(stages)
              && AllUnresolved(stages) && AllWellFormed(stages)
  {
    CutSucceedsIff(cat, jobId, p, next);
    if HasNoWindowAgg(p) {
      CutIsGood(cat, jobId, p, next);
      var Cut(q, stages, n) := CutPlan(cat, jobId, p, next);
      WholeCutIsGood(cat, jobId, q, stages, next, n);
    }
  }
}
