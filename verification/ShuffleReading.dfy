/**
 Reading a shuffle back. The reader groups the locations of its partition by executor, mixes them,
 reads the local ones in one task and each remote one in a task of its own; whatever the order in
 which the files arrive, it gets the rows of its partition, each exactly once.
 */
module ShuffleReading {
  import opened Wrappers
  import opened Plans
  import opened Semantics
  import opened Shuffle
  import opened Exchange

  // ---------- Which files are fetched ----------

  function OfExecutor(ls: seq<PartitionLocation>, executorId: string): seq<PartitionLocation> {
    if ls == [] then []
    else
      var init, last := OfExecutor(ls[..|ls| - 1], executorId), ls[|ls| - 1];
      if last.executorId == executorId then init + [last] else init
  }

  lemma {:induction false} OfExecutorMultiplicity(ls: seq<PartitionLocation>, executorId: string, l: PartitionLocation)
    ensures multiset(OfExecutor(ls, executorId))[l] == if l.executorId == executorId then multiset(ls)[l] else 0
  {
    if ls != [] {
      var init := ls[..|ls| - 1];
      assert ls == init + [ls[|ls| - 1]];
      OfExecutorMultiplicity(init, executorId, l);
    }
  }

  /** A group keeps the order of its locations. */
  lemma {:induction false} OfExecutorKeepsOrder(ls: seq<PartitionLocation>, executorId: string)
    returns (at: seq<nat>)
    ensures |at| == |OfExecutor(ls, executorId)| && AscendingIndices(at, |ls|)
    ensures forall i :: 0 <= i < |at| ==> OfExecutor(ls, executorId)[i] == ls[at[i]]
  {
    at := [];
    if ls != [] {
      var last := |ls| - 1;
      at := OfExecutorKeepsOrder(ls[..last], executorId);
      if ls[last].executorId == executorId {
        at := at + [last];
      }
    }
  }

  method GroupByExecutor(ls: seq<PartitionLocation>) returns (groups: map<string, seq<PartitionLocation>>)
    ensures forall e :: e in groups ==> groups[e] == OfExecutor(ls, e)
    ensures forall l :: l in ls ==> l.executorId in groups
  {
    groups := map[];
    for i := 0 to |ls|
      invariant forall e :: e in groups ==> groups[e] == OfExecutor(ls[..i], e)
      invariant forall e :: e !in groups ==> OfExecutor(ls[..i], e) == []
      invariant forall j :: 0 <= j < i ==> ls[j].executorId in groups
    {
      assert ls[..i + 1][..i] == ls[..i];
      var e := ls[i].executorId;
      groups := groups[e := (if e in groups then groups[e] else []) + [ls[i]]];
    }
    assert ls[..|ls|] == ls;
  }

  /** The groups one after the other, in the order the map happens to hold them. */
  method Ungroup(ghost ls: seq<PartitionLocation>, groups: map<string, seq<PartitionLocation>>)
    returns (order: seq<PartitionLocation>)
    requires forall e :: e in groups ==> groups[e] == OfExecutor(ls, e)
    requires forall l :: l in ls ==> l.executorId in groups
    ensures multiset(order) == multiset(ls)
  {
    order := [];
    var todo := groups.Keys;
    while todo != {}
      invariant todo <= groups.Keys
      invariant forall l :: multiset(order)[l] == if l.executorId in groups.Keys - todo then multiset(ls)[l] else 0
      decreases |todo|
    {
      var e :| e in todo;
      forall l ensures multiset(order + groups[e])[l] ==
                       if l.executorId in groups.Keys - (todo - {e}) then multiset(ls)[l] else 0
      {
        OfExecutorMultiplicity(ls, e, l);
      }
      order := order + groups[e];
      todo := todo - {e};
    }
    forall l ensures multiset(order)[l] == multiset(ls)[l] {
      if l !in ls {
        assert multiset(ls)[l] == 0;
      }
    }
  }

  function Flat(tasks: seq<seq<PartitionLocation>>): seq<PartitionLocation> {
    if tasks == [] then [] else Flat(tasks[..|tasks| - 1]) + tasks[|tasks| - 1]
  }

  /**
   The fetch tasks of one partition: the first reads all local files, each other one remote file.
   Together they fetch every location exactly once.
   */
  method SendFetchPartitions(partition: seq<PartitionLocation>, isLocal: string -> bool)
    returns (tasks: seq<seq<PartitionLocation>>)
    ensures multiset(Flat(tasks)) == multiset(partition)
    ensures tasks != [] && forall l :: l in tasks[0] ==> isLocal(l.path)
    ensures forall k :: 1 <= k < |tasks| ==> |tasks[k]| == 1 && !isLocal(tasks[k][0].path)
  {
    var groups := GroupByExecutor(partition);
    var order := Ungroup(partition, groups);
    var local, remote := SplitByLocality(order, isLocal);
    tasks := OneTaskEach(local, remote);
    forall k | 1 <= k < |tasks| ensures |tasks[k]| == 1 && !isLocal(tasks[k][0].path) {
      assert tasks[(k - 1) + 1] == [remote[k - 1]];
    }
  }

  method SplitByLocality(order: seq<PartitionLocation>, isLocal: string -> bool)
    returns (local: seq<PartitionLocation>, remote: seq<PartitionLocation>)
    ensures multiset(local) + multiset(remote) == multiset(order)
    ensures forall l :: l in local ==> isLocal(l.path)
    ensures forall l :: l in remote ==> !isLocal(l.path)
  {
    local, remote := [], [];
    for i := 0 to |order|
      invariant multiset(local) + multiset(remote) == multiset(order[..i])
      invariant forall l :: l in local ==> isLocal(l.path)
      invariant forall l :: l in remote ==> !isLocal(l.path)
    {
      assert order[..i + 1] == order[..i] + [order[i]];
      if isLocal(order[i].path) {
        local := local + [order[i]];
      } else {
        remote := remote + [order[i]];
      }
    }
    assert order[..|order|] == order;
  }

  method OneTaskEach(local: seq<PartitionLocation>, remote: seq<PartitionLocation>)
    returns (tasks: seq<seq<PartitionLocation>>)
    ensures |tasks| == 1 + |remote| && tasks[0] == local
    ensures forall k :: 0 <= k < |remote| ==> tasks[k + 1] == [remote[k]]
    ensures Flat(tasks) == local + remote
  {
    tasks := [local];
    assert tasks[..0] == [];
    for i := 0 to |remote|
      invariant |tasks| == i + 1 && tasks[0] == local
      invariant forall k :: 0 <= k < i ==> tasks[k + 1] == [remote[k]]
      invariant Flat(tasks) == local + remote[..i]
    {
      assert remote[..i + 1] == remote[..i] + [remote[i]];
      assert (tasks + [[remote[i]]])[..|tasks|] == tasks;
      tasks := tasks + [[remote[i]]];
    }
    assert remote[..|remote|] == remote;
  }

  // ---------- What they hold ----------

  predicate DistinctInputs(ls: seq<PartitionLocation>) {
    forall i, j :: 0 <= i < j < |ls| ==> ls[i].mapPartitionId != ls[j].mapPartitionId
  }

  lemma {:induction false} DistinctMultiplicity(ls: seq<PartitionLocation>, l: PartitionLocation)
    requires DistinctInputs(ls)
    ensures multiset(ls)[l] <= 1
  {
    if ls != [] {
      var init := ls[..|ls| - 1];
      assert ls == init + [ls[|ls| - 1]];
      DistinctMultiplicity(init, l);
      if l == ls[|ls| - 1] {
        assert l !in init;
      }
    }
  }

  lemma RepeatedMultiplicity(ls: seq<PartitionLocation>, i: nat, j: nat)
    requires i < j < |ls| && ls[i] == ls[j]
    ensures multiset(ls)[ls[i]] >= 2
  {
    assert ls == ls[..j] + [ls[j]] + ls[j + 1..];
    assert ls[i] in ls[..j];
  }

  /** A different order has the same locations, still one per input partition. */
  lemma ReorderedIsDistinct(ls: seq<PartitionLocation>, order: seq<PartitionLocation>)
    requires DistinctInputs(ls) && multiset(order) == multiset(ls)
    ensures DistinctInputs(order)
    ensures forall l :: l in order <==> l in ls
  {
    assert forall l :: l in order <==> l in multiset(order);
    assert forall l :: l in ls <==> l in multiset(ls);
    forall i, j | 0 <= i < j < |order| ensures order[i].mapPartitionId != order[j].mapPartitionId {
      if order[i] == order[j] {
        RepeatedMultiplicity(order, i, j);
        DistinctMultiplicity(ls, order[i]);
      }
      assert order[i] in ls && order[j] in ls;
    }
  }

  lemma {:induction false} FetchedConcat(files: Files, a: seq<PartitionLocation>, b: seq<PartitionLocation>)
    requires forall l :: l in a || l in b ==> l.path in files
    ensures Fetched(files, a + b) == Fetched(files, a) + Fetched(files, b)
  {
    if b == [] {
      assert a + b == a;
    } else {
      assert (a + b)[..|a + b| - 1] == a + b[..|b| - 1];
      FetchedConcat(files, a, b[..|b| - 1]);
    }
  }

  lemma FetchedOne(files: Files, l: PartitionLocation)
    requires l.path in files
    ensures Fetched(files, [l]) == files[l.path]
  {
    assert [l][..0] == [];
  }

  lemma FetchedWithout(files: Files, order: seq<PartitionLocation>, k: nat)
    requires k < |order| && forall l :: l in order ==> l.path in files
    ensures forall l :: l in order[..k] + order[k + 1..] ==> l in order
    ensures multiset(Fetched(files, order)) ==
            multiset(Fetched(files, order[..k] + order[k + 1..])) + multiset(files[order[k].path])
  {
    var a, l, b := order[..k], order[k], order[k + 1..];
    assert order == (a + [l]) + b;
    FetchedConcat(files, a + [l], b);
    FetchedConcat(files, a, [l]);
    FetchedConcat(files, a, b);
    FetchedOne(files, l);
  }

  /** The locations hold one file for each input partition with rows for q, and possibly empty ones. */
  ghost predicate Covers(
    engine: Engine, exprs: string, count: nat, q: nat, written: Table, files: Files, order: seq<PartitionLocation>)
  {
    && DistinctInputs(order)
    && (forall l :: l in order ==>
          && l.path in files && l.mapPartitionId < |written|
          && files[l.path] == RowsTo(engine, exprs, count, q, written[l.mapPartitionId]))
    && (forall t: nat :: t < |written| && RowsTo(engine, exprs, count, q, written[t]) != [] ==> HasLocation(order, t))
  }

  /** Taking one location away takes away its input partition and nothing else. */
  lemma LocationRemoved(order: seq<PartitionLocation>, k: nat)
    requires DistinctInputs(order) && k < |order|
    ensures var rest := order[..k] + order[k + 1..];
            && DistinctInputs(rest)
            && (forall l :: l in rest ==> l in order && l.mapPartitionId != order[k].mapPartitionId)
            && (forall t: nat :: HasLocation(order, t) && t != order[k].mapPartitionId ==> HasLocation(rest, t))
  {
    var rest := order[..k] + order[k + 1..];
    forall i | 0 <= i < |rest| ensures rest[i] == order[if i < k then i else i + 1] {}
    forall t: nat | HasLocation(order, t) && t != order[k].mapPartitionId ensures HasLocation(rest, t) {
      var i :| 0 <= i < |order| && order[i].mapPartitionId == t;
      assert rest[if i < k then i else i - 1].mapPartitionId == t;
    }
  }

  /** Taking away the last input partition and its file, if it has one. */
  lemma CoversInit(
    engine: Engine, exprs: string, count: nat, q: nat, written: Table, files: Files, order: seq<PartitionLocation>,
    k: nat)
    requires written != [] && Covers(engine, exprs, count, q, written, files, order)
    requires k < |order| && order[k].mapPartitionId == |written| - 1
    ensures Covers(engine, exprs, count, q, written[..|written| - 1], files, order[..k] + order[k + 1..])
  {
    LocationRemoved(order, k);
    var init := written[..|written| - 1];
    assert forall t: nat :: t < |init| ==> init[t] == written[t];
  }

  lemma CoversInitWithout(
    engine: Engine, exprs: string, count: nat, q: nat, written: Table, files: Files, order: seq<PartitionLocation>)
    requires written != [] && Covers(engine, exprs, count, q, written, files, order)
    requires !HasLocation(order, |written| - 1)
    ensures Covers(engine, exprs, count, q, written[..|written| - 1], files, order)
  {
    var init := written[..|written| - 1];
    assert forall t: nat :: t < |init| ==> init[t] == written[t];
    forall l | l in order ensures l.mapPartitionId < |init| {
      var i :| 0 <= i < |order| && order[i] == l;
      assert l.mapPartitionId != |written| - 1;
    }
  }

  /** Fetching one file per contributing input partition gives all rows of the output partition. */
  lemma {:induction false} FetchedAll(
    engine: Engine, exprs: string, count: nat, q: nat, written: Table, files: Files, order: seq<PartitionLocation>)
    requires Covers(engine, exprs, count, q, written, files, order)
    ensures multiset(Fetched(files, order)) == multiset(RowsTo(engine, exprs, count, q, Rows(written)))
    decreases |written|
  {
    assert order != [] ==> order[0] in order && order[0].mapPartitionId < |written|;
    if written != [] {
      var init, last := written[..|written| - 1], |written| - 1;
      RowsToConcat(engine, exprs, count, q, Rows(init), written[last]);
      if HasLocation(order, last) {
        var k :| 0 <= k < |order| && order[k].mapPartitionId == last;
        assert order[k] in order;
        FetchedWithout(files, order, k);
        CoversInit(engine, exprs, count, q, written, files, order, k);
        FetchedAll(engine, exprs, count, q, init, files, order[..k] + order[k + 1..]);
      } else {
        CoversInitWithout(engine, exprs, count, q, written, files, order);
        FetchedAll(engine, exprs, count, q, init, files, order);
      }
    }
  }

  lemma OneLocation(engine: Engine, written: Table, files: Files, q: nat, ls: seq<PartitionLocation>)
    requires q < |written| && HoldsContributions(engine, None, written, Upto(|written|), q, ls, files)
    ensures |ls| == 1 && ls[0].path in files && files[ls[0].path] == written[q]
  {
    assert Delivers(engine, None, q, q, written[q]);
    var k :| 0 <= k < |ls| && ls[k].mapPartitionId == q;
    forall i | 0 <= i < |ls| ensures ls[i].mapPartitionId == q {
      assert ls[i] in ls;
      assert HasLocation(ls, ls[i].mapPartitionId);
    }
    var last := |ls| - 1;
    assert ls[0].mapPartitionId == ls[last].mapPartitionId;
    assert last == 0 && ls[0] in ls;
    assert files[ls[0].path] == Contribution(engine, None, q, q, written[q]);
  }

  /** Without repartitioning, a partition has one location: it is read back in the order written. */
  lemma PlainReadBack(engine: Engine, written: Table, locations: Locations, files: Files, q: nat, rows: seq<Row>)
    requires StageWritten(engine, None, written, locations, files)
    requires q < |written|
    requires FetchedInSomeOrder(files, LocationsAt(locations, q), rows)
    ensures |LocationsAt(locations, q)| == 1
    ensures rows == written[q]
  {
    var ls := LocationsAt(locations, q);
    OneLocation(engine, written, files, q, ls);
    var order: seq<PartitionLocation> :| multiset(order) == multiset(ls) &&
      (forall l :: l in order ==> l.path in files) && rows == Fetched(files, order);
    assert |multiset(order)| == |order| == 1;
    assert order[0] in multiset(ls);
    assert order == [ls[0]];
    FetchedOne(files, ls[0]);
  }

  /** With hash partitioning, partition q reads exactly the rows that hash to q. */
  lemma HashReadBack(
    engine: Engine, exprs: string, count: nat, written: Table, locations: Locations, files: Files,
    q: nat, rows: seq<Row>)
    requires StageWritten(engine, Some(Hash(exprs, count)), written, locations, files)
    requires q < count
    requires FetchedInSomeOrder(files, LocationsAt(locations, q), rows)
    ensures multiset(rows) == multiset(RowsTo(engine, exprs, count, q, Rows(written)))
  {
    var ls, partitioning := LocationsAt(locations, q), Some(Hash(exprs, count));
    assert HoldsContributions(engine, partitioning, written, Upto(|written|), q, ls, files);
    var order: seq<PartitionLocation> :| multiset(order) == multiset(ls) &&
      (forall l :: l in order ==> l.path in files) && rows == Fetched(files, order);
    ContributionsCover(engine, exprs, count, q, written, Upto(|written|), files, ls);
    ReorderedCovers(engine, exprs, count, q, written, files, ls, order);
    FetchedAll(engine, exprs, count, q, written, files, order);
  }

  lemma ContributionsCover(
    engine: Engine, exprs: string, count: nat, q: nat, written: Table, done: set<nat>, files: Files,
    ls: seq<PartitionLocation>)
    requires q < count && forall t: nat :: t < |written| ==> t in done
    requires HoldsContributions(engine, Some(Hash(exprs, count)), written, done, q, ls, files)
    ensures Covers(engine, exprs, count, q, written, files, ls)
  {
    forall t: nat | t < |written| && RowsTo(engine, exprs, count, q, written[t]) != [] ensures HasLocation(ls, t) {
      assert t in done && Delivers(engine, Some(Hash(exprs, count)), q, t, written[t]);
    }
  }

  lemma ReorderedCovers(
    engine: Engine, exprs: string, count: nat, q: nat, written: Table, files: Files,
    ls: seq<PartitionLocation>, order: seq<PartitionLocation>)
    requires Covers(engine, exprs, count, q, written, files, ls)
    requires multiset(order) == multiset(ls)
    ensures Covers(engine, exprs, count, q, written, files, order)
  {
    ReorderedIsDistinct(ls, order);
    forall l ensures l in order <==> l in ls {
      assert l in multiset(order) <==> l in multiset(ls);
    }
    forall t: nat | HasLocation(ls, t) ensures HasLocation(order, t) {
      var i :| 0 <= i < |ls| && ls[i].mapPartitionId == t;
      assert ls[i] in order;
    }
  }

  /** What readers get from a finished stage is what the stage's exchange promises. */
  lemma WrittenIsReadable(
    engine: Engine, partitioning: Option<Partitioning>, written: Table, locations: Locations, files: Files, read: Table)
    requires StageWritten(engine, partitioning, written, locations, files)
    requires |read| == if partitioning.None? then |written| else partitioning.value.count
    requires forall q :: 0 <= q < |read| ==> FetchedInSomeOrder(files, LocationsAt(locations, q), read[q])
    ensures ShuffleRead(engine, partitioning, written, read)
  {
    forall q: nat | q < |read|
      ensures if partitioning.None? then read[q] == written[q]
              else multiset(read[q]) ==
                   multiset(RowsTo(engine, partitioning.value.exprs, partitioning.value.count, q, Rows(written)))
    {
      if partitioning.None? {
        PlainReadBack(engine, written, locations, files, q, read[q]);
      } else {
        HashReadBack(engine, partitioning.value.exprs, partitioning.value.count, written, locations, files, q, read[q]);
      }
    }
  }
}
