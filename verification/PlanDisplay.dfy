/**
 Printing a stage plan with its metrics. The metrics of the operators are collected into one list;
 the printer walks over the plan and takes the metrics from that list by a running index.
 */
module PlanDisplay {
  import opened Wrappers

  datatype MetricsSet = MetricsSet(values: seq<string>)

  datatype Node = Node(name: string, metrics: Option<MetricsSet>, children: seq<Node>)

  /** One printed line; an operator for which the list has no entry is shown without metrics. */
  datatype Line = Line(indent: nat, name: string, shown: Option<MetricsSet>)

  // ---------- Positions in the plan ----------

  /** A path names an operator by the child to take at each level. */
  predicate IsPath(p: Node, path: seq<nat>) {
    path == [] || (path[0] < |p.children| && IsPath(p.children[path[0]], path[1..]))
  }

  function At(p: Node, path: seq<nat>): Node
    requires IsPath(p, path)
  {
    if path == [] then p else At(p.children[path[0]], path[1..])
  }

  function Size(p: Node): nat
    decreases p, 1
  {
    1 + SizeOfAll(p.children)
  }

  function SizeOfAll(ps: seq<Node>): nat
    decreases ps, 0
  {
    if ps == [] then 0 else SizeOfAll(ps[..|ps| - 1]) + Size(ps[|ps| - 1])
  }

  /** How many operators come before the one at the path when parents come before their children. */
  function Position(p: Node, path: seq<nat>): nat
    requires IsPath(p, path)
  {
    if path == [] then 0
    else 1 + SizeOfAll(p.children[..path[0]]) + Position(p.children[path[0]], path[1..])
  }

  /** Parents before their children, and children from left to right. */
  predicate ComesBefore(a: seq<nat>, b: seq<nat>) {
    b != [] && (a == [] || a[0] < b[0] || (a[0] == b[0] && ComesBefore(a[1..], b[1..])))
  }

  lemma {:induction false} SizesGrow(ps: seq<Node>, i: nat, j: nat)
    requires i < j <= |ps|
    ensures SizeOfAll(ps[..i]) + Size(ps[i]) <= SizeOfAll(ps[..j])
  {
    assert ps[..j][..j - 1] == ps[..j - 1];
    if i < j - 1 {
      SizesGrow(ps, i, j - 1);
    }
  }

  lemma {:induction false} PositionBelowSize(p: Node, path: seq<nat>)
    requires IsPath(p, path)
    ensures Position(p, path) < Size(p)
    decreases path
  {
    if path != [] {
      PositionBelowSize(p.children[path[0]], path[1..]);
      SizesGrow(p.children, path[0], |p.children|);
      assert p.children[..|p.children|] == p.children;
    }
  }

  /** Positions are in the order of the paths. */
  lemma {:induction false} PositionsInOrder(p: Node, a: seq<nat>, b: seq<nat>)
    requires IsPath(p, a) && IsPath(p, b) && ComesBefore(a, b)
    ensures Position(p, a) < Position(p, b)
    decreases a
  {
    if a != [] {
      if a[0] == b[0] {
        PositionsInOrder(p.children[a[0]], a[1..], b[1..]);
      } else {
        PositionBelowSize(p.children[a[0]], a[1..]);
        SizesGrow(p.children, a[0], b[0]);
      }
    }
  }

  function Preorder(p: Node): (r: seq<Node>)
    ensures |r| == Size(p)
    decreases p, 1
  {
    [p] + PreorderOfAll(p.children)
  }

  function PreorderOfAll(ps: seq<Node>): (r: seq<Node>)
    ensures |r| == SizeOfAll(ps)
    decreases ps, 0
  {
    if ps == [] then [] else PreorderOfAll(ps[..|ps| - 1]) + Preorder(ps[|ps| - 1])
  }

  // ---------- Collecting the metrics ----------

  /** The metrics of those that have some, in order. */
  function Reported(ps: seq<Node>): seq<MetricsSet> {
    if ps == [] then []
    else
      var last := ps[|ps| - 1];
      Reported(ps[..|ps| - 1]) + if last.metrics.Some? then [last.metrics.value] else []
  }

  lemma {:induction false} ReportedConcat(a: seq<Node>, b: seq<Node>)
    ensures Reported(a + b) == Reported(a) + Reported(b)
  {
    if b == [] {
      assert a + b == a;
    } else {
      assert (a + b)[..|a + b| - 1] == a + b[..|b| - 1];
      ReportedConcat(a, b[..|b| - 1]);
    }
  }

  lemma ReportedChild(own: seq<MetricsSet>, ps: seq<Node>, i: nat)
    requires i < |ps|
    ensures own + Reported(PreorderOfAll(ps[..i + 1])) ==
            own + Reported(PreorderOfAll(ps[..i])) + Reported(Preorder(ps[i]))
  {
    assert ps[..i + 1][..i] == ps[..i];
    ReportedConcat(PreorderOfAll(ps[..i]), Preorder(ps[i]));
  }

  lemma ReportedRoot(p: Node)
    ensures Reported(Preorder(p)) ==
            (if p.metrics.Some? then [p.metrics.value] else []) + Reported(PreorderOfAll(p.children))
  {
    ReportedConcat([p], PreorderOfAll(p.children));
    assert [p][..0] == [];
  }

  method CollectPlanMetrics(p: Node) returns (metrics: seq<MetricsSet>)
    ensures metrics == Reported(Preorder(p))
  {
    metrics := [];
    if p.metrics.Some? {
      metrics := [p.metrics.value];
    }
    ReportedRoot(p);
    ghost var own := metrics;
    for i := 0 to |p.children|
      invariant metrics == own + Reported(PreorderOfAll(p.children[..i]))
    {
      var more := CollectPlanMetrics(p.children[i]);
      metrics := metrics + more;
      ReportedChild(own, p.children, i);
    }
    assert p.children[..|p.children|] == p.children;
  }

  // ---------- The printer ----------

  function Entry(metrics: seq<MetricsSet>, index: nat): Option<MetricsSet> {
    if index < |metrics| then Some(metrics[index]) else None
  }

  function Lines(p: Node, indent: nat, index: nat, metrics: seq<MetricsSet>): (r: seq<Line>)
    ensures |r| == Size(p)
    decreases p, 1
  {
    [Line(indent, p.name, Entry(metrics, index))] + LinesOfAll(p.children, indent + 1, index + 1, metrics)
  }

  function LinesOfAll(ps: seq<Node>, indent: nat, index: nat, metrics: seq<MetricsSet>): (r: seq<Line>)
    ensures |r| == SizeOfAll(ps)
    decreases ps, 0
  {
    if ps == [] then []
    else
      var front := ps[..|ps| - 1];
      LinesOfAll(front, indent, index, metrics) +
      Lines(ps[|ps| - 1], indent, index + SizeOfAll(front), metrics)
  }

  class IndentVisitor {
    var lines: seq<Line>
    var indent: nat
    const metrics: seq<MetricsSet>
    var metricIndex: nat

    constructor (metrics: seq<MetricsSet>)
      ensures lines == [] && indent == 0 && metricIndex == 0 && this.metrics == metrics
    {
      lines, indent, metricIndex := [], 0, 0;
      this.metrics := metrics;
    }

    method PreVisit(p: Node)
      modifies this
      ensures lines == old(lines) + [Line(old(indent), p.name, Entry(metrics, old(metricIndex)))]
      ensures indent == old(indent) + 1 && metricIndex == old(metricIndex) + 1
    {
      lines := lines + [Line(indent, p.name, Entry(metrics, metricIndex))];
      indent := indent + 1;
      metricIndex := metricIndex + 1;
    }

    method PostVisit()
      requires indent > 0
      modifies this
      ensures lines == old(lines) && indent == old(indent) - 1 && metricIndex == old(metricIndex)
    {
      indent := indent - 1;
    }

    /** Visits the operator before and after its children; the indent ends up where it started. */
    method Accept(p: Node)
      modifies this
      ensures lines == old(lines) + Lines(p, old(indent), old(metricIndex), metrics)
      ensures indent == old(indent) && metricIndex == old(metricIndex) + Size(p)
      decreases p
    {
      PreVisit(p);
      for i := 0 to |p.children|
        invariant indent == old(indent) + 1
        invariant metricIndex == old(metricIndex) + 1 + SizeOfAll(p.children[..i])
        invariant lines ==
                  old(lines) + [Line(old(indent), p.name, Entry(metrics, old(metricIndex)))] +
                  LinesOfAll(p.children[..i], old(indent) + 1, old(metricIndex) + 1, metrics)
      {
        assert p.children[..i + 1][..i] == p.children[..i];
        Accept(p.children[i]);
      }
      assert p.children[..|p.children|] == p.children;
      PostVisit();
    }
  }

  // ---------- Every operator is printed in its place ----------

  lemma {:induction false} PreorderOfChild(ps: seq<Node>, i: nat, k: nat)
    requires i < |ps| && k < Size(ps[i])
    ensures SizeOfAll(ps[..i]) + k < SizeOfAll(ps)
    ensures PreorderOfAll(ps)[SizeOfAll(ps[..i]) + k] == Preorder(ps[i])[k]
  {
    var last := |ps| - 1;
    if i < last {
      PreorderOfChild(ps[..last], i, k);
      assert ps[..last][..i] == ps[..i];
    }
  }

  lemma {:induction false} LinesOfChild(
    ps: seq<Node>, i: nat, k: nat, indent: nat, index: nat, metrics: seq<MetricsSet>)
    requires i < |ps| && k < Size(ps[i])
    ensures SizeOfAll(ps[..i]) + k < SizeOfAll(ps)
    ensures LinesOfAll(ps, indent, index, metrics)[SizeOfAll(ps[..i]) + k] ==
            Lines(ps[i], indent, index + SizeOfAll(ps[..i]), metrics)[k]
  {
    var last := |ps| - 1;
    if i < last {
      LinesOfChild(ps[..last], i, k, indent, index, metrics);
      assert ps[..last][..i] == ps[..i];
    }
  }

  lemma {:induction false} OperatorInPlace(p: Node, path: seq<nat>)
    requires IsPath(p, path)
    ensures Position(p, path) < Size(p)
    ensures Preorder(p)[Position(p, path)] == At(p, path)
    decreases path
  {
    if path != [] {
      OperatorInPlace(p.children[path[0]], path[1..]);
      PreorderOfChild(p.children, path[0], Position(p.children[path[0]], path[1..]));
    }
  }

  /**
   The line of an operator is found at its position in the plan; its indent is its depth, and the
   index of the visitor at that moment is its position.
   */
  lemma {:induction false} PrintedInPlace(
    p: Node, path: seq<nat>, indent: nat, index: nat, metrics: seq<MetricsSet>)
    requires IsPath(p, path)
    ensures Position(p, path) < Size(p)
    ensures Lines(p, indent, index, metrics)[Position(p, path)] ==
            Line(indent + |path|, At(p, path).name, Entry(metrics, index + Position(p, path)))
    decreases path
  {
    if path != [] {
      var i := path[0];
      var child := p.children[i];
      var before := SizeOfAll(p.children[..i]);
      PrintedInPlace(child, path[1..], indent + 1, index + 1 + before, metrics);
      LinesOfChild(p.children, i, Position(child, path[1..]), indent + 1, index + 1, metrics);
    }
  }

  /** Every line is the line of some operator. */
  lemma {:induction false} PathOfLine(p: Node, k: nat) returns (path: seq<nat>)
    requires k < Size(p)
    ensures IsPath(p, path) && Position(p, path) == k
    decreases p
  {
    if k == 0 {
      path := [];
    } else {
      var i, rest := ChildOfLine(p.children, k - 1);
      var tail := PathOfLine(p.children[i], rest);
      path := [i] + tail;
      assert path[1..] == tail;
    }
  }

  lemma {:induction false} ChildOfLine(ps: seq<Node>, k: nat) returns (i: nat, rest: nat)
    requires k < SizeOfAll(ps)
    ensures i < |ps| && rest < Size(ps[i]) && k == SizeOfAll(ps[..i]) + rest
  {
    var last := |ps| - 1;
    if k < SizeOfAll(ps[..last]) {
      i, rest := ChildOfLine(ps[..last], k);
      assert ps[..last][..i] == ps[..i];
    } else {
      i, rest := last, k - SizeOfAll(ps[..last]);
    }
  }

  // ---------- Whose metrics are printed ----------

  /** Nobody without metrics comes before somebody with metrics. */
  predicate GapFree(ps: seq<Node>) {
    forall i, j :: 0 <= i < j < |ps| ==> ps[i].metrics.None? ==> ps[j].metrics.None?
  }

  /** The list entry that each operator is shown with is its own. */
  predicate ShownOwn(ps: seq<Node>) {
    forall k :: 0 <= k < |ps| ==> Entry(Reported(ps), k) == ps[k].metrics
  }

  lemma {:induction false} GapFreeIsShownOwn(ps: seq<Node>)
    requires GapFree(ps)
    ensures ShownOwn(ps)
    ensures |Reported(ps)| <= |ps|
    ensures (forall k :: 0 <= k < |ps| ==> ps[k].metrics.Some?) ==> |Reported(ps)| == |ps|
  {
    if ps != [] {
      var last := |ps| - 1;
      GapFreeIsShownOwn(ps[..last]);
      forall k | 0 <= k < last ensures Entry(Reported(ps), k) == ps[k].metrics {
        assert ps[..last][k] == ps[k];
        assert ps[k].metrics.None? ==> ps[last].metrics.None?;
      }
    }
  }

  lemma ShownOwnIsGapFree(ps: seq<Node>)
    requires ShownOwn(ps)
    ensures GapFree(ps)
  {
    forall i, j | 0 <= i < j < |ps| && ps[i].metrics.None? ensures ps[j].metrics.None? {
      assert Entry(Reported(ps), i) == None && Entry(Reported(ps), j) == None;
    }
  }

  /** The line of the operator at a path. */
  function LineAt(p: Node, path: seq<nat>, metrics: seq<MetricsSet>): (line: Line)
    requires IsPath(p, path)
    ensures line.indent == |path| && line.name == At(p, path).name
  {
    PrintedInPlace(p, path, 0, 0, metrics);
    Lines(p, 0, 0, metrics)[Position(p, path)]
  }

  ghost predicate PrintsOwn(p: Node) {
    forall path :: IsPath(p, path) ==> LineAt(p, path, Reported(Preorder(p))).shown == At(p, path).metrics
  }

  /**
   Every operator is printed with its own metrics if and only if no operator without metrics comes
   before one with metrics.
   */
  lemma OwnMetricsIff(p: Node)
    ensures PrintsOwn(p) <==> GapFree(Preorder(p))
  {
    var metrics := Reported(Preorder(p));
    if GapFree(Preorder(p)) {
      GapFreeIsShownOwn(Preorder(p));
      forall path | IsPath(p, path) ensures LineAt(p, path, metrics).shown == At(p, path).metrics {
        OperatorInPlace(p, path);
        PrintedInPlace(p, path, 0, 0, metrics);
      }
    }
    if PrintsOwn(p) {
      forall k | 0 <= k < Size(p) ensures Entry(metrics, k) == Preorder(p)[k].metrics {
        var path := PathOfLine(p, k);
        OperatorInPlace(p, path);
        PrintedInPlace(p, path, 0, 0, metrics);
        assert LineAt(p, path, metrics).shown == At(p, path).metrics;
      }
      ShownOwnIsGapFree(Preorder(p));
    }
  }

  /** An operator without metrics above one with metrics is shown with what belongs to the other. */
  lemma MetricsShift(name: string, child: Node)
    requires child.metrics.Some?
    ensures var p := Node(name, None, [child]);
            !PrintsOwn(p) && LineAt(p, [], Reported(Preorder(p))).shown == child.metrics
  {
    var p := Node(name, None, [child]);
    var metrics := Reported(Preorder(p));
    assert metrics != [] && metrics[0] == child.metrics.value by {
      ReportedRoot(p);
      ReportedRoot(child);
      assert PreorderOfAll([]) + Preorder(child) == Preorder(child) && [child][..0] == [];
    }
    PrintedInPlace(p, [], 0, 0, metrics);
    assert IsPath(p, []) && LineAt(p, [], metrics).shown == child.metrics;
  }

  // ---------- The metrics of a finished stage ----------

  /** Adds the metrics of the stage to the metrics of the plan, entry by entry. */
  method CombineMetrics(planMetrics: seq<MetricsSet>, stageMetrics: seq<MetricsSet>)
    returns (combined: seq<MetricsSet>)
    requires |planMetrics| == |stageMetrics|
    ensures |combined| == |planMetrics|
    ensures forall k :: 0 <= k < |combined| ==> combined[k].values == planMetrics[k].values + stageMetrics[k].values
  {
    combined := planMetrics;
    for k := 0 to |stageMetrics|
      invariant |combined| == |planMetrics|
      invariant forall j :: 0 <= j < k ==> combined[j].values == planMetrics[j].values + stageMetrics[j].values
      invariant forall j :: k <= j < |combined| ==> combined[j] == planMetrics[j]
    {
      for i := 0 to |stageMetrics[k].values|
        invariant |combined| == |planMetrics|
        invariant forall j :: 0 <= j < k ==> combined[j].values == planMetrics[j].values + stageMetrics[j].values
        invariant combined[k].values == planMetrics[k].values + stageMetrics[k].values[..i]
        invariant forall j :: k < j < |combined| ==> combined[j] == planMetrics[j]
      {
        combined := combined[k := MetricsSet(combined[k].values + [stageMetrics[k].values[i]])];
      }
    }
  }

  /**
   Prints a finished stage. When every operator reports metrics, and the stage brings one set for
   each, the operator at any path gets its own set and the one the stage has at its position.
   */
  method PrintStageMetrics(p: Node, stageMetrics: seq<MetricsSet>) returns (r: Option<seq<Line>>)
    ensures r.Some? <==> |stageMetrics| == |Reported(Preorder(p))|
    ensures r.Some? ==> |r.value| == Size(p)
    ensures r.Some? && AllReport(p) ==>
              forall path :: IsPath(p, path) ==> PrintedWith(p, path, r.value, stageMetrics)
  {
    var planMetrics := CollectPlanMetrics(p);
    if |planMetrics| != |stageMetrics| {
      return None;
    }
    var combined := CombineMetrics(planMetrics, stageMetrics);
    var visitor := new IndentVisitor(combined);
    visitor.Accept(p);
    r := Some(visitor.lines);
    if AllReport(p) {
      forall path | IsPath(p, path) ensures PrintedWith(p, path, r.value, stageMetrics) {
        CombinedInPlace(p, path, combined, stageMetrics);
      }
    }
  }

  predicate AllReport(p: Node) {
    forall k :: 0 <= k < Size(p) ==> Preorder(p)[k].metrics.Some?
  }

  lemma CombinedInPlace(p: Node, path: seq<nat>, combined: seq<MetricsSet>, stageMetrics: seq<MetricsSet>)
    requires IsPath(p, path) && AllReport(p)
    requires |combined| == |stageMetrics| == |Reported(Preorder(p))|
    requires forall k :: 0 <= k < |combined| ==>
               combined[k].values == Reported(Preorder(p))[k].values + stageMetrics[k].values
    ensures PrintedWith(p, path, Lines(p, 0, 0, combined), stageMetrics)
  {
    GapFreeIsShownOwn(Preorder(p));
    OperatorInPlace(p, path);
    PrintedInPlace(p, path, 0, 0, combined);
    var k := Position(p, path);
    assert Entry(Reported(Preorder(p)), k) == Preorder(p)[k].metrics;
  }

  predicate PrintedWith(p: Node, path: seq<nat>, lines: seq<Line>, stageMetrics: seq<MetricsSet>)
    requires IsPath(p, path)
  {
    var k := Position(p, path);
    && k < |lines| && k < |stageMetrics| && At(p, path).metrics.Some?
    && lines[k] == Line(|path|, At(p, path).name,
                        Some(MetricsSet(At(p, path).metrics.value.values + stageMetrics[k].values)))
  }
}
