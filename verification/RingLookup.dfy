/**
 Lookups on the consistent hash ring: what the bounded clockwise scan finds, and how little the
 answers change when nodes come and go.
 */
module RingLookup {
  import opened Wrappers
  import opened KeyOrder
  import opened ConsistentHashing

  predicate ValidAt(r: Ring, k: Bytes) {
    k in r.vnodes && r.vnodes[k] in r.replicas && r.replicas[r.vnodes[k]].0.valid
  }

  /** The first valid virtual node among the first `budget` of ks. */
  function Scan(r: Ring, ks: seq<Bytes>, budget: nat): (k: Option<Bytes>)
    ensures k.Some? ==> ValidAt(r, k.value)
  {
    if ks == [] || budget == 0 then None
    else if ValidAt(r, ks[0]) then Some(ks[0])
    else Scan(r, ks[1..], budget - 1)
  }

  function Lookup(hash: HashFunction, r: Ring, key: string, tolerance: nat): (k: Option<Bytes>)
    ensures k.Some? ==> ValidAt(r, k.value)
  {
    if r.replicas == map[] then None
    else Scan(r, Clockwise(r.vnodes.Keys, hash(key)), tolerance + 1)
  }

  /** The node in charge of a key, if the tolerance suffices to reach one. */
  function Found(hash: HashFunction, r: Ring, key: string, tolerance: nat): Option<Node> {
    match Lookup(hash, r, key, tolerance)
    case None => None
    case Some(k) => Some(r.replicas[r.vnodes[k]].0)
  }

  // ---------- The scan ----------

  /** What "first valid among the first budget" means, without the recursion. */
  ghost predicate IsFirstValid(r: Ring, ks: seq<Bytes>, budget: nat, j: nat) {
    j < |ks| && j < budget && ValidAt(r, ks[j]) && forall i :: 0 <= i < j ==> !ValidAt(r, ks[i])
  }

  lemma {:induction false} FirstIsFound(r: Ring, ks: seq<Bytes>, budget: nat, j: nat)
    requires IsFirstValid(r, ks, budget, j)
    ensures Scan(r, ks, budget) == Some(ks[j])
  {
    if j > 0 {
      assert !ValidAt(r, ks[0]);
      assert forall i :: 0 <= i < |ks| - 1 ==> ks[1..][i] == ks[i + 1];
      FirstIsFound(r, ks[1..], budget - 1, j - 1);
    }
  }

  lemma {:induction false} NothingIsFound(r: Ring, ks: seq<Bytes>, budget: nat)
    requires forall j :: 0 <= j < |ks| && j < budget ==> !ValidAt(r, ks[j])
    ensures Scan(r, ks, budget) == None
  {
    if ks != [] && budget > 0 {
      assert forall i :: 0 <= i < |ks| - 1 ==> ks[1..][i] == ks[i + 1];
      NothingIsFound(r, ks[1..], budget - 1);
    }
  }

  /** The scan finds a virtual node exactly if it is the first valid one within the budget. */
  lemma {:induction false} ScanFindsFirst(r: Ring, ks: seq<Bytes>, budget: nat) returns (j: nat)
    ensures Scan(r, ks, budget).Some? ==> IsFirstValid(r, ks, budget, j) && ks[j] == Scan(r, ks, budget).value
    ensures Scan(r, ks, budget).None? ==> forall i :: 0 <= i < |ks| && i < budget ==> !ValidAt(r, ks[i])
  {
    j := 0;
    if ks != [] && budget > 0 && !ValidAt(r, ks[0]) {
      var j' := ScanFindsFirst(r, ks[1..], budget - 1);
      j := j' + 1;
      forall i | 0 < i < |ks| && i < budget && Scan(r, ks, budget).None? ensures !ValidAt(r, ks[i]) {
        assert ks[i] == ks[1..][i - 1];
      }
      forall i | 0 < i < j && Scan(r, ks, budget).Some? ensures !ValidAt(r, ks[i]) {
        assert ks[i] == ks[1..][i - 1];
      }
    }
  }

  // ---------- What a lookup answers ----------

  /**
   Going up from h, and from the lowest virtual node on after the highest one, k is the first valid
   virtual node, and at most `tolerance` others are passed.
   */
  ghost predicate Serves(r: Ring, h: Bytes, tolerance: nat, k: Bytes) {
    && ValidAt(r, k) && |PassedKeys(r.vnodes.Keys, h, k)| <= tolerance
    && forall x :: x in PassedKeys(r.vnodes.Keys, h, k) ==> !ValidAt(r, x)
  }

  /** None of the virtual nodes that the tolerance lets a lookup reach is valid. */
  ghost predicate NoneInReach(r: Ring, h: Bytes, tolerance: nat) {
    forall x :: x in r.vnodes && |PassedKeys(r.vnodes.Keys, h, x)| <= tolerance ==> !ValidAt(r, x)
  }

  lemma ServesIffFirst(r: Ring, h: Bytes, tolerance: nat, j: nat)
    requires j < |Clockwise(r.vnodes.Keys, h)|
    ensures Serves(r, h, tolerance, Clockwise(r.vnodes.Keys, h)[j]) <==>
              IsFirstValid(r, Clockwise(r.vnodes.Keys, h), tolerance + 1, j)
  {
    var ks := Clockwise(r.vnodes.Keys, h);
    ClockwisePassed(r.vnodes.Keys, h, j);
    assert forall i :: 0 <= i < j ==> ks[i] in ks[..j];
    forall x | x in Members(ks[..j]) ensures exists i :: 0 <= i < j && ks[i] == x {
      var i :| 0 <= i < |ks[..j]| && ks[..j][i] == x;
      assert ks[i] == x;
    }
  }

  /** A lookup answers with the virtual node that serves the hash of the key. */
  lemma LookupIff(hash: HashFunction, r: Ring, key: string, tolerance: nat, k: Bytes)
    ensures Lookup(hash, r, key, tolerance) == Some(k) <==> Serves(r, hash(key), tolerance, k)
  {
    if r.replicas != map[] {
      var ks := Clockwise(r.vnodes.Keys, hash(key));
      ClockwiseVisitsAll(r.vnodes.Keys, hash(key));
      var j := ScanFindsFirst(r, ks, tolerance + 1);
      if Lookup(hash, r, key, tolerance).Some? {
        ServesIffFirst(r, hash(key), tolerance, j);
      }
      if Serves(r, hash(key), tolerance, k) {
        assert k in ks;
        var i :| 0 <= i < |ks| && ks[i] == k;
        ServesIffFirst(r, hash(key), tolerance, i);
        FirstIsFound(r, ks, tolerance + 1, i);
      }
    }
  }

  /** It answers with nothing exactly if nothing in reach is valid. */
  lemma LookupFailsIff(hash: HashFunction, r: Ring, key: string, tolerance: nat)
    ensures Lookup(hash, r, key, tolerance).None? <==> NoneInReach(r, hash(key), tolerance)
  {
    var h := hash(key);
    var ks := Clockwise(r.vnodes.Keys, h);
    ClockwiseVisitsAll(r.vnodes.Keys, h);
    if Lookup(hash, r, key, tolerance).Some? {
      LookupIff(hash, r, key, tolerance, Lookup(hash, r, key, tolerance).value);
    } else if r.replicas != map[] {
      var _ := ScanFindsFirst(r, ks, tolerance + 1);
      forall x | x in r.vnodes && |PassedKeys(r.vnodes.Keys, h, x)| <= tolerance ensures !ValidAt(r, x) {
        assert x in ks;
        var i :| 0 <= i < |ks| && ks[i] == x;
        ClockwisePassed(r.vnodes.Keys, h, i);
      }
    }
  }

  /** A larger tolerance does not change an answer. */
  lemma {:induction false} ScanIsStable(r: Ring, ks: seq<Bytes>, budget: nat, more: nat)
    requires budget <= more && Scan(r, ks, budget).Some?
    ensures Scan(r, ks, more) == Scan(r, ks, budget)
  {
    if !ValidAt(r, ks[0]) {
      ScanIsStable(r, ks[1..], budget - 1, more - 1);
    }
  }

  lemma LookupIsStable(hash: HashFunction, r: Ring, key: string, tolerance: nat, more: nat)
    requires tolerance <= more && Found(hash, r, key, tolerance).Some?
    ensures Found(hash, r, key, more) == Found(hash, r, key, tolerance)
  {
    ScanIsStable(r, Clockwise(r.vnodes.Keys, hash(key)), tolerance + 1, more + 1);
  }

  /** Tolerating the whole ring, a lookup finds a node exactly if some virtual node is valid. */
  lemma UnlimitedLookup(hash: HashFunction, r: Ring, key: string, tolerance: nat)
    requires tolerance + 1 >= |r.vnodes|
    ensures Found(hash, r, key, tolerance).Some? <==> exists k :: k in r.vnodes && ValidAt(r, k)
  {
    var ks := Clockwise(r.vnodes.Keys, hash(key));
    ClockwiseVisitsAll(r.vnodes.Keys, hash(key));
    var _ := ScanFindsFirst(r, ks, tolerance + 1);
    if k :| k in r.vnodes && ValidAt(r, k) {
      assert k in ks;
      var j :| 0 <= j < |ks| && ks[j] == k;
    }
  }

  // ---------- Minimal disruption ----------

  /** Leaving out some keys and keeping the rest as valid as before, the scan stops at the same one. */
  lemma {:induction false} ScanWithout(r: Ring, s: Ring, ks: seq<Bytes>, dropped: set<Bytes>, budget: nat)
    requires Scan(r, ks, budget).Some? && Scan(r, ks, budget).value !in dropped
    requires forall k :: k in ks && k !in dropped ==> (ValidAt(r, k) <==> ValidAt(s, k))
    ensures Scan(s, Without(ks, dropped), budget) == Scan(r, ks, budget)
  {
    var rest := Without(ks[1..], dropped);
    if !ValidAt(r, ks[0]) {
      ScanWithout(r, s, ks[1..], dropped, budget - 1);
      if ks[0] in dropped {
        ScanIsStable(s, rest, budget - 1, budget);
      } else {
        assert ks[0] in ks;
        assert ([ks[0]] + rest)[1..] == rest;
      }
    } else {
      assert ks[0] in ks;
    }
  }

  /** The ids of a registered node fit, so that removing it takes away no other node's virtual node. */
  ghost predicate Removable(hash: HashFunction, r: Ring, gone: string) {
    Registered(hash, r) && (gone in r.replicas ==> Fits(hash, r, gone, r.replicas[gone].1))
  }

  lemma RemovedVnodes(hash: HashFunction, r: Ring, gone: string)
    requires Removable(hash, r, gone)
    ensures RemoveNode(hash, r, gone).vnodes == r.vnodes - VnodesOf(r, gone)
  {
    if gone in r.replicas {
      RemovesItsOwnIff(hash, r, gone);
    } else {
      assert VnodesOf(r, gone) == {};
    }
  }

  lemma OthersStayValid(hash: HashFunction, r: Ring, gone: string, k: Bytes)
    requires Removable(hash, r, gone)
    requires k in r.vnodes && k !in VnodesOf(r, gone)
    ensures ValidAt(r, k) <==> ValidAt(RemoveNode(hash, r, gone), k)
    ensures ValidAt(r, k) ==>
              && RemoveNode(hash, r, gone).vnodes[k] == r.vnodes[k]
              && RemoveNode(hash, r, gone).replicas[r.vnodes[k]] == r.replicas[r.vnodes[k]]
  {
    RemovedVnodes(hash, r, gone);
  }

  lemma ClockwiseAfterRemoval(hash: HashFunction, r: Ring, gone: string, h: Bytes)
    requires Removable(hash, r, gone)
    ensures Clockwise(RemoveNode(hash, r, gone).vnodes.Keys, h) ==
            Without(Clockwise(r.vnodes.Keys, h), VnodesOf(r, gone))
  {
    RemovedVnodes(hash, r, gone);
    assert RemoveNode(hash, r, gone).vnodes.Keys == r.vnodes.Keys - VnodesOf(r, gone);
    ClockwiseWithout(r.vnodes.Keys, h, VnodesOf(r, gone));
  }

  /** Removing a node, valid or not, moves no key that another node was in charge of. */
  lemma RemovalMovesNoOtherKey(hash: HashFunction, r: Ring, key: string, tolerance: nat, gone: string)
    requires Removable(hash, r, gone)
    requires Found(hash, r, key, tolerance).Some? && Found(hash, r, key, tolerance).value.name != gone
    ensures Found(hash, RemoveNode(hash, r, gone), key, tolerance) == Found(hash, r, key, tolerance)
  {
    var r', ks := RemoveNode(hash, r, gone), Clockwise(r.vnodes.Keys, hash(key));
    var k := Lookup(hash, r, key, tolerance).value;
    ClockwiseVisitsAll(r.vnodes.Keys, hash(key));
    ClockwiseAfterRemoval(hash, r, gone, hash(key));
    forall k | k in ks && k !in VnodesOf(r, gone) ensures ValidAt(r, k) <==> ValidAt(r', k) {
      OthersStayValid(hash, r, gone, k);
    }
    OthersStayValid(hash, r, gone, k);
    ScanWithout(r, r', ks, VnodesOf(r, gone), tolerance + 1);
  }

  /** On a ring whose additions all fitted, this holds for every node. */
  lemma RemovalFromCompleteRing(
    hash: HashFunction, changes: seq<Change>, key: string, tolerance: nat, gone: string)
    requires AllFit(hash, changes)
    requires var found := Found(hash, After(hash, changes), key, tolerance); found.Some? && found.value.name != gone
    ensures Found(hash, After(hash, changes + [Remove(gone)]), key, tolerance) ==
            Found(hash, After(hash, changes), key, tolerance)
  {
    AlwaysCompleteIff(hash, changes);
    var r := After(hash, changes);
    if gone in r.replicas {
      CompleteFits(hash, r, gone);
    }
    assert (changes + [Remove(gone)])[..|changes|] == changes;
    RemovalMovesNoOtherKey(hash, r, key, tolerance, gone);
  }

  /**
   After adding a node that fits, a lookup that finds another node finds the one it would find
   without the new one.
   */
  lemma AdditionMovesKeysOnlyToIt(hash: HashFunction, r: Ring, key: string, tolerance: nat, node: Node, n: nat)
    requires Registered(hash, r) && Fits(hash, RemoveNode(hash, r, node.name), node.name, n)
    ensures var found := Found(hash, AddNode(hash, r, node, n), key, tolerance);
            found.None? || found.value == node || found == Found(hash, RemoveNode(hash, r, node.name), key, tolerance)
  {
    var cleared, larger := RemoveNode(hash, r, node.name), AddNode(hash, r, node, n);
    RemoveKeepsRegistered(hash, r, node.name);
    assert RemoveNode(hash, cleared, node.name) == cleared && AddNode(hash, cleared, node, n) == larger;
    AddKeepsRegistered(hash, cleared, node, n);
    AddRemoveRestoresIff(hash, cleared, node, n);
    AddedOwnsItsPlaces(hash, r, node, n);
    var found := Found(hash, larger, key, tolerance);
    if found.Some? && found.value.name != node.name {
      RemovalMovesNoOtherKey(hash, larger, key, tolerance, node.name);
    }
  }

  lemma AddedOwnsItsPlaces(hash: HashFunction, r: Ring, node: Node, n: nat)
    ensures CompleteFor(hash, AddNode(hash, r, node, n), node.name, n)
  {
    forall i: nat | i < n
      ensures var k := hash(VnodeId(node.name, i));
              k in AddNode(hash, r, node, n).vnodes && AddNode(hash, r, node, n).vnodes[k] == node.name
    {
      InsertedContents(hash, RemoveNode(hash, r, node.name).vnodes, node.name, n, hash(VnodeId(node.name, i)));
    }
  }

  /** With only valid nodes, adding a node that fits keeps each key where it is or moves it to the new node. */
  lemma AdditionToHealthyRing(hash: HashFunction, r: Ring, key: string, node: Node, n: nat)
    requires Registered(hash, r) && Fits(hash, RemoveNode(hash, r, node.name), node.name, n)
    requires forall name :: name in AddNode(hash, r, node, n).replicas ==>
               AddNode(hash, r, node, n).replicas[name].0.valid
    requires AddNode(hash, r, node, n).vnodes != map[]
    ensures var found := Found(hash, AddNode(hash, r, node, n), key, 0);
            found == Some(node) ||
            (found.Some? && found == Found(hash, RemoveNode(hash, r, node.name), key, 0))
  {
    var larger := AddNode(hash, r, node, n);
    AddKeepsRegistered(hash, r, node, n);
    var ks := Clockwise(larger.vnodes.Keys, hash(key));
    ClockwiseVisitsAll(larger.vnodes.Keys, hash(key));
    var k :| k in larger.vnodes;
    assert k in ks && ks[0] in ks;
    AdditionMovesKeysOnlyToIt(hash, r, key, 0, node, n);
  }

  // ---------- The chained scan ----------

  lemma {:induction false} ScanOfPrefix(r: Ring, a: seq<Bytes>, b: seq<Bytes>, budget: nat)
    requires budget <= |a|
    ensures Scan(r, a + b, budget) == Scan(r, a, budget)
  {
    if a != [] && budget > 0 {
      assert (a + b)[1..] == a[1..] + b;
      ScanOfPrefix(r, a[1..], b, budget - 1);
    }
  }

  lemma {:induction false} ScanOfAll(r: Ring, ks: seq<Bytes>, budget: nat)
    requires |ks| <= budget
    ensures Scan(r, ks, budget) == Scan(r, ks, |ks|)
  {
    if ks != [] {
      ScanOfAll(r, ks[1..], budget - 1);
    }
  }

  /** The keys from the hash on, then all keys again, as the lookup chains its two iterators. */
  function Chained(keys: set<Bytes>, h: Bytes): seq<Bytes> {
    Ascending(From(keys, h)) + Ascending(keys)
  }

  lemma ChainedKeys(keys: set<Bytes>, h: Bytes)
    ensures forall k :: k in Chained(keys, h) ==> k in keys
    ensures |keys| <= |Chained(keys, h)|
  {
    AscendingListsAll(From(keys, h));
    AscendingListsAll(keys);
  }

  lemma ChainedIsClockwise(keys: set<Bytes>, h: Bytes)
    ensures |Clockwise(keys, h)| == |keys|
    ensures Chained(keys, h) == Clockwise(keys, h) + Ascending(From(keys, h))
  {
    ClockwiseVisitsAll(keys, h);
    AscendingSplits(keys, h);
  }

  /** Scanning from the hash to the end and then from the start is scanning clockwise, once around. */
  lemma ChainedScan(r: Ring, h: Bytes, tolerance: nat, limit: nat)
    requires r.vnodes != map[]
    requires limit == if tolerance >= |r.vnodes| then |r.vnodes| - 1 else tolerance
    ensures Scan(r, Chained(r.vnodes.Keys, h), limit + 1) == Scan(r, Clockwise(r.vnodes.Keys, h), tolerance + 1)
  {
    var clockwise := Clockwise(r.vnodes.Keys, h);
    ChainedIsClockwise(r.vnodes.Keys, h);
    ScanOfPrefix(r, clockwise, Ascending(From(r.vnodes.Keys, h)), limit + 1);
    if tolerance >= |r.vnodes| {
      ScanOfAll(r, clockwise, tolerance + 1);
    }
  }

  // ---------- The mutable ring ----------

  class ConsistentHash {
    var virtualNodes: map<Bytes, string>
    var nodeReplicas: map<string, (Node, nat)>
    const hashFunc: HashFunction

    function Contents(): Ring
      reads this
    {
      Ring(virtualNodes, nodeReplicas)
    }

    constructor (nodeReplicas: seq<(Node, nat)>, hashFunc: HashFunction)
      ensures this.hashFunc == hashFunc
      ensures Contents() == After(hashFunc, Additions(nodeReplicas))
    {
      virtualNodes, this.nodeReplicas, this.hashFunc := map[], map[], hashFunc;
      new;
      for i := 0 to |nodeReplicas|
        invariant Contents() == After(hashFunc, Additions(nodeReplicas[..i]))
      {
        var (node, n) := nodeReplicas[i];
        assert nodeReplicas[..i + 1][..i] == nodeReplicas[..i];
        AddNodeReplicas(node, n);
      }
      assert nodeReplicas[..|nodeReplicas|] == nodeReplicas;
    }

    method AddNodeReplicas(node: Node, numReplicas: nat)
      modifies this
      ensures Contents() == AddNode(hashFunc, old(Contents()), node, numReplicas)
    {
      var _ := RemoveByName(node.name);
      ghost var cleared := virtualNodes;
      for i := 0 to numReplicas
        invariant virtualNodes == Inserted(hashFunc, cleared, node.name, i)
        invariant nodeReplicas == RemoveNode(hashFunc, old(Contents()), node.name).replicas
      {
        virtualNodes := virtualNodes[hashFunc(VnodeId(node.name, i)) := node.name];
      }
      nodeReplicas := nodeReplicas[node.name := (node, numReplicas)];
    }

    method RemoveByName(name: string) returns (removed: Option<(Node, nat)>)
      modifies this
      ensures Contents() == RemoveNode(hashFunc, old(Contents()), name)
      ensures removed == if name in old(nodeReplicas) then Some(old(nodeReplicas)[name]) else None
    {
      if name !in nodeReplicas {
        return None;
      }
      var (node, numReplicas) := nodeReplicas[name];
      nodeReplicas := nodeReplicas - {name};
      for i := 0 to numReplicas
        invariant virtualNodes == Deleted(hashFunc, old(virtualNodes), name, i)
        invariant nodeReplicas == old(nodeReplicas) - {name}
      {
        virtualNodes := virtualNodes - {hashFunc(VnodeId(name, i))};
      }
      removed := Some((node, numReplicas));
    }

    /** The scan over the ring from the key's hash, then over the whole ring again. */
    method GetPositionKey(key: string, tolerance: nat) returns (k: Option<Bytes>)
      requires nodeReplicas != map[] ==> virtualNodes != map[]
      ensures k == Lookup(hashFunc, Contents(), key, tolerance)
      ensures k.Some? ==> Serves(Contents(), hashFunc(key), tolerance, k.value)
      ensures k.None? <==> NoneInReach(Contents(), hashFunc(key), tolerance)
    {
      ghost var found := Lookup(hashFunc, Contents(), key, tolerance);
      LookupFailsIff(hashFunc, Contents(), key, tolerance);
      if found.Some? {
        LookupIff(hashFunc, Contents(), key, tolerance, found.value);
      }
      if nodeReplicas == map[] {
        return None;
      }
      var limit := if tolerance >= |virtualNodes| then |virtualNodes| - 1 else tolerance;
      var hashedKey, keys := hashFunc(key), virtualNodes.Keys;
      var chained := Chained(keys, hashedKey);
      ChainedKeys(keys, hashedKey);
      ChainedScan(Contents(), hashedKey, tolerance, limit);
      k := ScanChain(chained, limit);
    }

    method ScanChain(chained: seq<Bytes>, limit: nat) returns (k: Option<Bytes>)
      requires limit < |chained| && forall i :: 0 <= i < |chained| ==> chained[i] in virtualNodes
      ensures k == Scan(Contents(), chained, limit + 1)
    {
      var tolerance := limit;
      for i := 0 to |chained|
        invariant 0 <= tolerance == limit - i
        invariant forall j :: 0 <= j < i ==> !ValidAt(Contents(), chained[j])
      {
        var positionKey := chained[i];
        if virtualNodes[positionKey] in nodeReplicas && nodeReplicas[virtualNodes[positionKey]].0.valid {
          FirstIsFound(Contents(), chained, limit + 1, i);
          return Some(positionKey);
        }
        if tolerance == 0 {
          NothingIsFound(Contents(), chained, limit + 1);
          return None;
        }
        tolerance := tolerance - 1;
      }
      k := None;
    }

    /** The unwraps of the lookup are safe on every ring that was built by adding and removing. */
    method GetWithTolerance(key: string, tolerance: nat) returns (node: Option<Node>)
      requires Registered(hashFunc, Contents())
      requires nodeReplicas != map[] ==> virtualNodes != map[]
      ensures node == Found(hashFunc, Contents(), key, tolerance)
      ensures node.Some? ==> node.value.valid && node.value.name in nodeReplicas
      ensures node.Some? ==> exists k :: k in virtualNodes && virtualNodes[k] == node.value.name &&
                                         Serves(Contents(), hashFunc(key), tolerance, k)
      ensures node.None? <==> NoneInReach(Contents(), hashFunc(key), tolerance)
    {
      var positionKey := GetPositionKey(key, tolerance);
      match positionKey {
        case None => node := None;
        case Some(k) => node := Some(nodeReplicas[virtualNodes[k]].0);
      }
    }
  }

  function Additions(nodeReplicas: seq<(Node, nat)>): seq<Change> {
    if nodeReplicas == [] then []
    else
      var last := nodeReplicas[|nodeReplicas| - 1];
      Additions(nodeReplicas[..|nodeReplicas| - 1]) + [Change.Add(last.0, last.1)]
  }

  predicate Named(nodeReplicas: seq<(Node, nat)>, name: string) {
    exists j :: 0 <= j < |nodeReplicas| && nodeReplicas[j].0.name == name
  }

  /** The i-th pair is the last one with this name. */
  predicate LastNamed(nodeReplicas: seq<(Node, nat)>, name: string, i: nat) {
    && i < |nodeReplicas| && nodeReplicas[i].0.name == name
    && forall j :: i < j < |nodeReplicas| ==> nodeReplicas[j].0.name != name
  }

  /** A new ring holds the nodes it is built from; of those with the same name it holds the last one. */
  lemma {:induction false} NewRingHolds(hash: HashFunction, nodeReplicas: seq<(Node, nat)>, name: string)
    returns (i: nat)
    ensures name in After(hash, Additions(nodeReplicas)).replicas <==> Named(nodeReplicas, name)
    ensures Named(nodeReplicas, name) ==>
              && LastNamed(nodeReplicas, name, i)
              && After(hash, Additions(nodeReplicas)).replicas[name] == nodeReplicas[i]
  {
    i := 0;
    if nodeReplicas != [] {
      var n := |nodeReplicas| - 1;
      i := NewRingHolds(hash, nodeReplicas[..n], name);
      OneAdditionMore(hash, nodeReplicas);
      NamedSnoc(nodeReplicas, name, i);
      if nodeReplicas[n].0.name == name {
        i := n;
      }
    }
  }

  lemma NamedSnoc(nodeReplicas: seq<(Node, nat)>, name: string, i: nat)
    requires nodeReplicas != []
    ensures var n := |nodeReplicas| - 1;
            && (Named(nodeReplicas, name) <==> Named(nodeReplicas[..n], name) || nodeReplicas[n].0.name == name)
            && (LastNamed(nodeReplicas[..n], name, i) && nodeReplicas[n].0.name != name ==>
                  LastNamed(nodeReplicas, name, i))
  {
    var n := |nodeReplicas| - 1;
    if Named(nodeReplicas[..n], name) {
      var j :| 0 <= j < n && nodeReplicas[..n][j].0.name == name;
      assert nodeReplicas[j].0.name == name;
    }
    if j :| 0 <= j < n && nodeReplicas[j].0.name == name {
      assert nodeReplicas[..n][j].0.name == name;
    }
  }

  lemma AddedReplicas(hash: HashFunction, r: Ring, node: Node, n: nat)
    ensures AddNode(hash, r, node, n).replicas == r.replicas[node.name := (node, n)]
  {}

  lemma OneAdditionMore(hash: HashFunction, nodeReplicas: seq<(Node, nat)>)
    requires nodeReplicas != []
    ensures var n := |nodeReplicas| - 1;
            var before := After(hash, Additions(nodeReplicas[..n])).replicas;
            After(hash, Additions(nodeReplicas)).replicas == before[nodeReplicas[n].0.name := nodeReplicas[n]]
  {
    var before, last := nodeReplicas[..|nodeReplicas| - 1], nodeReplicas[|nodeReplicas| - 1];
    var changes := Additions(nodeReplicas);
    assert changes[..|changes| - 1] == Additions(before);
    AddedReplicas(hash, After(hash, Additions(before)), last.0, last.1);
  }

  /** Marking a node valid or invalid does so for all its virtual nodes and for no others. */
  lemma SetValidAt(hash: HashFunction, r: Ring, name: string, valid: bool, k: Bytes)
    requires name in r.replicas
    ensures var r' := Changed(hash, r, SetValid(name, valid));
            && r'.vnodes == r.vnodes && r'.replicas.Keys == r.replicas.Keys
            && (ValidAt(r', k) <==> if k in r.vnodes && r.vnodes[k] == name then valid else ValidAt(r, k))
  {}
}
