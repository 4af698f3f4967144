/** The schemas of the stages: a stage, and every reference to it, carries that of the exchange it was cut at. */
module StageSchemas {
  import opened Plans
  import opened Planner
  import opened StageStructure
  import opened Semantics
  import opened ResultBags

  /** Operators that leave the columns of their input alone. */
  predicate PassesThrough(op: Operator) {
    IsExchange(op) || op.Repartition? || op.ShuffleWriter?
  }

  /** The operator that the columns of a plan come from. */
  function Origin(p: Plan): Plan
    requires WellFormed(p)
  {
    if PassesThrough(p.op) then Origin(p.children[0]) else p
  }

  /** The schema of a query is the one the catalog has for the operator its columns come from. */
  lemma {:induction false} SchemaOfOrigin(cat: Catalog, p: Plan)
    requires WellFormed(p) && IsQuery(p)
    ensures !PassesThrough(Origin(p).op)
    ensures SchemaOf(cat, p) == cat.schema(Origin(p).op, SchemasOf(cat, Origin(p).children))
  {
    if PassesThrough(p.op) {
      SchemaOfOrigin(cat, p.children[0]);
    }
  }

  lemma {:induction false} StrippedKeepsSchema(cat: Catalog, p: Plan)
    requires WellFormed(p)
    ensures SchemaOf(cat, Stripped(p)) == SchemaOf(cat, p)
  {
    if p.op.Repartition? && !p.op.partitioning.Hash? {
      StrippedKeepsSchema(cat, p.children[0]);
    } else {
      forall i | 0 <= i < |p.children| ensures SchemaOf(cat, Stripped(p.children[i])) == SchemaOf(cat, p.children[i]) {
        StrippedKeepsSchema(cat, p.children[i]);
      }
      assert SchemasOf(cat, StrippedAll(p.children)) == SchemasOf(cat, p.children);
    }
  }

  predicate Within(p: Plan, e: Plan) {
    e == p || exists i :: 0 <= i < |p.children| && Within(p.children[i], e)
  }

  /** The stage has the schema of an exchange of the plan. */
  ghost predicate OfExchange(cat: Catalog, p: Plan, stage: Plan) {
    exists e :: Within(p, e) && IsExchange(e.op) && SchemaOf(cat, stage) == SchemaOf(cat, e)
  }

  lemma OfExchangeBelow(cat: Catalog, p: Plan, i: nat, stage: Plan)
    requires i < |p.children| && OfExchange(cat, p.children[i], stage)
    ensures OfExchange(cat, p, stage)
  {
    var e :| Within(p.children[i], e) && IsExchange(e.op) && SchemaOf(cat, stage) == SchemaOf(cat, e);
    assert Within(p, e);
  }

  lemma SchemaPasses(cat: Catalog, p: Plan)
    requires PassesThrough(p.op) && |p.children| == 1
    ensures SchemaOf(cat, p) == SchemaOf(cat, p.children[0])
  {}

  /** The stage that is pushed out for an exchange has its schema. */
  lemma NewStageOfExchange(cat: Catalog, p: Plan, q: Plan, writer: Plan)
    requires WellFormed(p) && IsExchange(p.op) && SchemaOf(cat, q) == SchemaOf(cat, Stripped(p.children[0]))
    requires writer.op.ShuffleWriter? && writer.children == [q]
    ensures OfExchange(cat, p, writer)
  {
    StrippedKeepsSchema(cat, p.children[0]);
    SchemaPasses(cat, writer);
    SchemaPasses(cat, p);
    assert Within(p, p);
  }

  lemma PushedOutOfExchange(cat: Catalog, jobId: string, p: Plan, next: nat)
    requires WellFormed(p) && IsQuery(p) && IsExchange(p.op) && CutChildren(cat, jobId, p.children, next).CutAll?
    ensures var CutAll(children, stages, n) := CutChildren(cat, jobId, p.children, next);
            OfExchange(cat, p, CutRoot(cat, jobId, p.op, children, stages, n).stages[|stages|])
  {
    CutChildrenKeepsShape(cat, jobId, p.children, next);
    var CutAll(children, stages, n) := CutChildren(cat, jobId, p.children, next);
    assert SameShape(cat, children[0], StrippedAll(p.children)[0]);
    NewStageOfExchange(cat, p, children[0], CutRoot(cat, jobId, p.op, children, stages, n).stages[|stages|]);
  }

  lemma {:induction false} CutStagesOfExchanges(cat: Catalog, jobId: string, p: Plan, next: nat, k: nat)
    requires WellFormed(p) && IsQuery(p) && CutPlan(cat, jobId, p, next).Cut?
    requires k < |CutPlan(cat, jobId, p, next).stages|
    ensures OfExchange(cat, p, CutPlan(cat, jobId, p, next).stages[k])
    decreases p, 1
  {
    var CutAll(children, stages, n) := CutChildren(cat, jobId, p.children, next);
    if k < |stages| {
      var i := CutForestOfExchanges(cat, jobId, p.children, next, k);
      OfExchangeBelow(cat, p, i, stages[k]);
    } else {
      PushedOutOfExchange(cat, jobId, p, next);
    }
  }

  lemma {:induction false} CutForestOfExchanges(cat: Catalog, jobId: string, ps: seq<Plan>, next: nat, k: nat)
    returns (i: nat)
    requires forall i :: 0 <= i < |ps| ==> WellFormed(ps[i]) && IsQuery(ps[i])
    requires CutChildren(cat, jobId, ps, next).CutAll? && k < |CutChildren(cat, jobId, ps, next).stages|
    ensures i < |ps| && OfExchange(cat, ps[i], CutChildren(cat, jobId, ps, next).stages[k])
    decreases ps, 0
  {
    var last := |ps| - 1;
    var CutAll(_, stages, n) := CutChildren(cat, jobId, ps[..last], next);
    if k < |stages| {
      i := CutForestOfExchanges(cat, jobId, ps[..last], next, k);
    } else {
      i := last;
      CutStagesOfExchanges(cat, jobId, ps[last], n, k - |stages|);
    }
  }

  /**
   Every reference in the stages of a query carries the schema that the catalog has for the operator which
   the columns of some exchange of the query come from.
   */
  lemma ReferencesCarryCatalogSchemas(cat: Catalog, jobId: string, p: Plan, next: nat, k: nat, u: Operator)
    returns (e: Plan)
    requires WellFormed(p) && IsQuery(p) && HasNoWindowAgg(p)
    requires StagesOf(cat, jobId, p, next).Success? ==>
               && k < |StagesOf(cat, jobId, p, next).value|
               && u in FindUnresolvedShuffles(StagesOf(cat, jobId, p, next).value[k])
    ensures Within(p, e) && IsExchange(e.op) && WellFormed(e)
    ensures u.UnresolvedShuffle? && u.schema == cat.schema(Origin(e).op, SchemasOf(cat, Origin(e).children))
  {
    StagesAreWellStructured(cat, jobId, p, next);
    var stages := StagesOf(cat, jobId, p, next).value;
    assert NamesSome(cat, u, stages[..k]);
    var i :| 0 <= i < k && Names(cat, u, stages[..k][i]);
    CutStagesOfExchanges(cat, jobId, p, next, i);
    e :| Within(p, e) && IsExchange(e.op) && SchemaOf(cat, stages[i]) == SchemaOf(cat, e);
    WithinIsQuery(p, e);
    SchemaOfOrigin(cat, e);
  }

  lemma {:induction false} WithinIsQuery(p: Plan, e: Plan)
    requires WellFormed(p) && IsQuery(p) && Within(p, e)
    ensures WellFormed(e) && IsQuery(e)
  {
    if e != p {
      var i :| 0 <= i < |p.children| && Within(p.children[i], e);
      WithinIsQuery(p.children[i], e);
    }
  }
}
