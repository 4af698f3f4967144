/**
 The consistent hash ring: virtual nodes at the hashes of their ids, added and removed with their
 node. `Ring` is the contents of the ring as a value, on which the claims are made.
 */
module ConsistentHashing {
  import opened Strings
  import opened KeyOrder

  datatype Node = Node(name: string, valid: bool)

  type HashFunction = string -> Bytes

  datatype Ring = Ring(vnodes: map<Bytes, string>, replicas: map<string, (Node, nat)>)

  const EMPTY_RING: Ring := Ring(map[], map[])

  function VnodeId(name: string, i: nat): string {
    name + ":" + Decimal(i)
  }

  /** An id names one replica of one node, even if node names contain colons. */
  lemma VnodeIdInjective(name: string, i: nat, name': string, i': nat)
    requires VnodeId(name, i) == VnodeId(name', i')
    ensures name == name' && i == i'
  {
    assert ':' !in DIGITS;
    LastSeparator(':', name, Decimal(i), name', Decimal(i'));
    DecimalInjective(i, i');
  }

  // ---------- Adding and removing ----------

  function Inserted(hash: HashFunction, vnodes: map<Bytes, string>, name: string, n: nat): map<Bytes, string> {
    if n == 0 then vnodes else Inserted(hash, vnodes, name, n - 1)[hash(VnodeId(name, n - 1)) := name]
  }

  function Deleted(hash: HashFunction, vnodes: map<Bytes, string>, name: string, n: nat): map<Bytes, string> {
    if n == 0 then vnodes else Deleted(hash, vnodes, name, n - 1) - {hash(VnodeId(name, n - 1))}
  }

  function RemoveNode(hash: HashFunction, r: Ring, name: string): Ring {
    if name !in r.replicas then r
    else Ring(Deleted(hash, r.vnodes, name, r.replicas[name].1), r.replicas - {name})
  }

  function AddNode(hash: HashFunction, r: Ring, node: Node, n: nat): Ring {
    var cleared := RemoveNode(hash, r, node.name);
    Ring(Inserted(hash, cleared.vnodes, node.name, n), cleared.replicas[node.name := (node, n)])
  }

  /** The n first replicas of name hash to k. */
  predicate IsReplica(hash: HashFunction, name: string, n: nat, k: Bytes) {
    exists i: nat :: i < n && hash(VnodeId(name, i)) == k
  }

  lemma {:induction false} InsertedContents(
    hash: HashFunction, vnodes: map<Bytes, string>, name: string, n: nat, k: Bytes)
    ensures k in Inserted(hash, vnodes, name, n) <==> k in vnodes || IsReplica(hash, name, n, k)
    ensures IsReplica(hash, name, n, k) ==> Inserted(hash, vnodes, name, n)[k] == name
    ensures k in vnodes && !IsReplica(hash, name, n, k) ==> Inserted(hash, vnodes, name, n)[k] == vnodes[k]
  {
    if n > 0 {
      InsertedContents(hash, vnodes, name, n - 1, k);
      ReplicaStep(hash, name, n, k);
    }
  }

  lemma {:induction false} DeletedContents(
    hash: HashFunction, vnodes: map<Bytes, string>, name: string, n: nat, k: Bytes)
    ensures k in Deleted(hash, vnodes, name, n) <==> k in vnodes && !IsReplica(hash, name, n, k)
    ensures k in Deleted(hash, vnodes, name, n) ==> Deleted(hash, vnodes, name, n)[k] == vnodes[k]
  {
    if n > 0 {
      DeletedContents(hash, vnodes, name, n - 1, k);
      ReplicaStep(hash, name, n, k);
    }
  }

  lemma ReplicaStep(hash: HashFunction, name: string, n: nat, k: Bytes)
    requires n > 0
    ensures IsReplica(hash, name, n, k) <==> IsReplica(hash, name, n - 1, k) || hash(VnodeId(name, n - 1)) == k
  {
    if IsReplica(hash, name, n, k) {
      var i: nat :| i < n && hash(VnodeId(name, i)) == k;
      assert i < n - 1 || i == n - 1;
    }
    if IsReplica(hash, name, n - 1, k) {
      var i: nat :| i < n - 1 && hash(VnodeId(name, i)) == k;
    }
  }

  // ---------- Every ring ----------

  datatype Change = Add(node: Node, numReplicas: nat) | Remove(name: string) | SetValid(name: string, valid: bool)

  /** `SetValid` stands for what callers do through `nodes_mut` and `get_mut`. */
  function Changed(hash: HashFunction, r: Ring, c: Change): Ring {
    match c
    case Add(node, n) => AddNode(hash, r, node, n)
    case Remove(name) => RemoveNode(hash, r, name)
    case SetValid(name, valid) =>
      if name !in r.replicas then r
      else r.(replicas := r.replicas[name := (r.replicas[name].0.(valid := valid), r.replicas[name].1)])
  }

  function After(hash: HashFunction, changes: seq<Change>): Ring {
    if changes == [] then EMPTY_RING
    else Changed(hash, After(hash, changes[..|changes| - 1]), changes[|changes| - 1])
  }

  /** Every virtual node belongs to a registered node and sits at the hash of one of its ids. */
  ghost predicate Registered(hash: HashFunction, r: Ring) {
    && (forall k :: k in r.vnodes ==>
          && r.vnodes[k] in r.replicas
          && IsReplica(hash, r.vnodes[k], r.replicas[r.vnodes[k]].1, k))
    && (forall name :: name in r.replicas ==> r.replicas[name].0.name == name)
  }

  lemma RemoveKeepsRegistered(hash: HashFunction, r: Ring, name: string)
    requires Registered(hash, r)
    ensures Registered(hash, RemoveNode(hash, r, name))
    ensures forall k :: k in RemoveNode(hash, r, name).vnodes ==> RemoveNode(hash, r, name).vnodes[k] != name
  {
    if name in r.replicas {
      var r' := RemoveNode(hash, r, name);
      forall k | k in r'.vnodes
        ensures k in r.vnodes && r'.vnodes[k] == r.vnodes[k] && r.vnodes[k] != name
      {
        DeletedContents(hash, r.vnodes, name, r.replicas[name].1, k);
      }
    }
  }

  lemma AddKeepsRegistered(hash: HashFunction, r: Ring, node: Node, n: nat)
    requires Registered(hash, r)
    ensures Registered(hash, AddNode(hash, r, node, n))
  {
    RemoveKeepsRegistered(hash, r, node.name);
    var cleared, r' := RemoveNode(hash, r, node.name), AddNode(hash, r, node, n);
    forall k | k in r'.vnodes
      ensures r'.vnodes[k] in r'.replicas && IsReplica(hash, r'.vnodes[k], r'.replicas[r'.vnodes[k]].1, k)
    {
      InsertedContents(hash, cleared.vnodes, node.name, n, k);
    }
  }

  /** Whatever the hash function, even one with collisions, and whatever was added and removed. */
  lemma {:induction false} AlwaysRegistered(hash: HashFunction, changes: seq<Change>)
    ensures Registered(hash, After(hash, changes))
  {
    if changes != [] {
      var r, c := After(hash, changes[..|changes| - 1]), changes[|changes| - 1];
      AlwaysRegistered(hash, changes[..|changes| - 1]);
      match c {
        case Add(node, n) => AddKeepsRegistered(hash, r, node, n);
        case Remove(name) => RemoveKeepsRegistered(hash, r, name);
        case SetValid(_, _) =>
      }
    }
  }

  // ---------- Rings on which every replica has its place ----------

  /** Every replica of the node is on the ring. */
  ghost predicate CompleteFor(hash: HashFunction, r: Ring, name: string, n: nat) {
    forall i: nat :: i < n ==> hash(VnodeId(name, i)) in r.vnodes && r.vnodes[hash(VnodeId(name, i))] == name
  }

  /** Every replica of every registered node is on the ring. */
  ghost predicate Complete(hash: HashFunction, r: Ring) {
    forall name :: name in r.replicas ==> CompleteFor(hash, r, name, r.replicas[name].1)
  }

  /** No id of the node hashes to where another node's virtual node is. */
  ghost predicate Fits(hash: HashFunction, r: Ring, name: string, n: nat) {
    forall i: nat :: i < n && hash(VnodeId(name, i)) in r.vnodes ==> r.vnodes[hash(VnodeId(name, i))] == name
  }

  /** Registered and complete: the ring is what its nodes say, no more and no less. */
  ghost predicate Exact(hash: HashFunction, r: Ring) {
    Registered(hash, r) && Complete(hash, r)
  }

  /** The virtual nodes of a name. */
  function VnodesOf(r: Ring, name: string): set<Bytes> {
    set k | k in r.vnodes && r.vnodes[k] == name
  }

  /** Removing a node takes away its own virtual nodes and nothing else, if and only if its ids fit. */
  lemma RemovesItsOwnIff(hash: HashFunction, r: Ring, gone: string)
    requires Registered(hash, r) && gone in r.replicas
    ensures RemoveNode(hash, r, gone).vnodes == r.vnodes - VnodesOf(r, gone) <==>
              Fits(hash, r, gone, r.replicas[gone].1)
  {
    var r', n := RemoveNode(hash, r, gone), r.replicas[gone].1;
    forall k ensures k in r'.vnodes <==> k in r.vnodes && !IsReplica(hash, gone, n, k)
             ensures k in r'.vnodes ==> r'.vnodes[k] == r.vnodes[k]
    {
      DeletedContents(hash, r.vnodes, gone, n, k);
    }
    if !Fits(hash, r, gone, n) {
      var i: nat :| i < n && hash(VnodeId(gone, i)) in r.vnodes && r.vnodes[hash(VnodeId(gone, i))] != gone;
      var k := hash(VnodeId(gone, i));
      assert k !in r'.vnodes && k in r.vnodes - VnodesOf(r, gone);
    }
  }

  lemma CompleteFits(hash: HashFunction, r: Ring, name: string)
    requires Complete(hash, r) && name in r.replicas
    ensures Fits(hash, r, name, r.replicas[name].1)
  {
    assert CompleteFor(hash, r, name, r.replicas[name].1);
  }

  lemma RemoveKeepsComplete(hash: HashFunction, r: Ring, gone: string)
    requires Exact(hash, r)
    ensures Exact(hash, RemoveNode(hash, r, gone))
  {
    RemoveKeepsRegistered(hash, r, gone);
    if gone in r.replicas {
      var r' := RemoveNode(hash, r, gone);
      CompleteFits(hash, r, gone);
      RemovesItsOwnIff(hash, r, gone);
      forall name | name in r'.replicas ensures CompleteFor(hash, r', name, r'.replicas[name].1) {
        assert CompleteFor(hash, r, name, r.replicas[name].1);
      }
    }
  }

  /** A complete ring stays complete with a node added if and only if the node's ids fit. */
  lemma AddIsCompleteIff(hash: HashFunction, r: Ring, node: Node, n: nat)
    requires Exact(hash, r)
    ensures Complete(hash, AddNode(hash, r, node, n)) <==> Fits(hash, r, node.name, n)
  {
    RemoveKeepsComplete(hash, r, node.name);
    var cleared, r' := RemoveNode(hash, r, node.name), AddNode(hash, r, node, n);
    forall k ensures k in r'.vnodes <==> k in cleared.vnodes || IsReplica(hash, node.name, n, k)
             ensures k in r'.vnodes ==>
                       r'.vnodes[k] == if IsReplica(hash, node.name, n, k) then node.name else cleared.vnodes[k]
    {
      InsertedContents(hash, cleared.vnodes, node.name, n, k);
    }
    ClearedFits(hash, r, node.name, n);
    if Fits(hash, r, node.name, n) {
      forall name | name in r'.replicas ensures CompleteFor(hash, r', name, r'.replicas[name].1) {
        if name != node.name {
          assert CompleteFor(hash, cleared, name, cleared.replicas[name].1);
        }
      }
    } else {
      var i: nat :| i < n && hash(VnodeId(node.name, i)) in cleared.vnodes;
      Overwritten(hash, cleared, node.name, n, i, r');
    }
  }

  /** On a ring that the node has been removed from, its ids fit if and only if their places are free. */
  lemma ClearedFits(hash: HashFunction, r: Ring, name: string, n: nat)
    requires Exact(hash, r)
    ensures Fits(hash, r, name, n) <==>
              forall i: nat :: i < n ==> hash(VnodeId(name, i)) !in RemoveNode(hash, r, name).vnodes
  {
    RemoveKeepsRegistered(hash, r, name);
    if name in r.replicas {
      CompleteFits(hash, r, name);
      RemovesItsOwnIff(hash, r, name);
    }
  }

  /** An id that does not fit takes the place of another node's replica. */
  lemma Overwritten(hash: HashFunction, cleared: Ring, name: string, n: nat, i: nat, r': Ring)
    requires Exact(hash, cleared) && name !in cleared.replicas
    requires i < n && hash(VnodeId(name, i)) in cleared.vnodes
    requires r'.replicas.Keys == cleared.replicas.Keys + {name}
    requires forall other :: other in cleared.replicas ==> r'.replicas[other] == cleared.replicas[other]
    requires hash(VnodeId(name, i)) in r'.vnodes && r'.vnodes[hash(VnodeId(name, i))] == name
    ensures !Complete(hash, r')
  {
    var k := hash(VnodeId(name, i));
    var other := cleared.vnodes[k];
    var j: nat :| j < cleared.replicas[other].1 && hash(VnodeId(other, j)) == k;
    assert !CompleteFor(hash, r', other, r'.replicas[other].1);
  }

  /** Every node that is added fits the ring it is added to. */
  ghost predicate AllFit(hash: HashFunction, changes: seq<Change>) {
    changes == [] ||
    var before, c := changes[..|changes| - 1], changes[|changes| - 1];
    AllFit(hash, before) && (c.Add? ==> Fits(hash, After(hash, before), c.node.name, c.numReplicas))
  }

  lemma ChangeIsCompleteIff(hash: HashFunction, r: Ring, c: Change)
    requires Exact(hash, r)
    ensures Registered(hash, Changed(hash, r, c))
    ensures Complete(hash, Changed(hash, r, c)) <==>
              (c.Add? ==> Fits(hash, r, c.node.name, c.numReplicas))
  {
    match c {
      case Add(node, n) =>
        AddKeepsRegistered(hash, r, node, n);
        AddIsCompleteIff(hash, r, node, n);
      case Remove(name) => RemoveKeepsComplete(hash, r, name);
      case SetValid(name, _) =>
        var r' := Changed(hash, r, c);
        forall other | other in r'.replicas ensures CompleteFor(hash, r', other, r'.replicas[other].1) {
          assert CompleteFor(hash, r, other, r.replicas[other].1);
        }
    }
  }

  /** The ring is complete from the first change to the last. */
  ghost predicate CompleteAllAlong(hash: HashFunction, changes: seq<Change>) {
    && Complete(hash, After(hash, changes))
    && (changes == [] || CompleteAllAlong(hash, changes[..|changes| - 1]))
  }

  lemma {:induction false} CompleteAtAnyTime(hash: HashFunction, changes: seq<Change>, m: nat)
    requires CompleteAllAlong(hash, changes) && m <= |changes|
    ensures Complete(hash, After(hash, changes[..m]))
  {
    if m == |changes| {
      assert changes[..m] == changes;
    } else {
      CompleteAtAnyTime(hash, changes[..|changes| - 1], m);
      assert changes[..|changes| - 1][..m] == changes[..m];
    }
  }

  /** The ring is complete all along a sequence of changes if and only if every addition fits. */
  lemma {:induction false} AlwaysCompleteIff(hash: HashFunction, changes: seq<Change>)
    ensures CompleteAllAlong(hash, changes) <==> AllFit(hash, changes)
    ensures AllFit(hash, changes) ==> Exact(hash, After(hash, changes))
  {
    if changes == [] {
      assert Complete(hash, EMPTY_RING);
    } else {
      var before, c := changes[..|changes| - 1], changes[|changes| - 1];
      AlwaysCompleteIff(hash, before);
      AlwaysRegistered(hash, before);
      AlwaysRegistered(hash, changes);
      if Exact(hash, After(hash, before)) {
        ChangeIsCompleteIff(hash, After(hash, before), c);
      }
    }
  }

  // ---------- When additions fit ----------

  /** The hash tells the ids of the nodes that are ever added apart. */
  ghost predicate Apart(hash: HashFunction, changes: seq<Change>) {
    forall c, d, i: nat, j: nat ::
      && c in changes && d in changes && c.Add? && d.Add? && i < c.numReplicas && j < d.numReplicas
      && hash(VnodeId(c.node.name, i)) == hash(VnodeId(d.node.name, j))
      ==> VnodeId(c.node.name, i) == VnodeId(d.node.name, j)
  }

  lemma {:induction false} NodesWereAdded(hash: HashFunction, changes: seq<Change>, name: string) returns (d: Change)
    requires name in After(hash, changes).replicas
    ensures d in changes && d.Add? && d.node.name == name && d.numReplicas == After(hash, changes).replicas[name].1
  {
    var before, c := changes[..|changes| - 1], changes[|changes| - 1];
    if c.Add? && c.node.name == name {
      d := c;
    } else {
      d := NodesWereAdded(hash, before, name);
    }
  }

  /** It is enough that the ids in use do not collide; other strings may hash as they like. */
  lemma {:induction false} ApartMeansAllFit(hash: HashFunction, changes: seq<Change>)
    requires Apart(hash, changes)
    ensures AllFit(hash, changes)
  {
    if changes != [] {
      var before, c := changes[..|changes| - 1], changes[|changes| - 1];
      ApartMeansAllFit(hash, before);
      AlwaysRegistered(hash, before);
      var r := After(hash, before);
      if c.Add? {
        forall i: nat | i < c.numReplicas && hash(VnodeId(c.node.name, i)) in r.vnodes
          ensures r.vnodes[hash(VnodeId(c.node.name, i))] == c.node.name
        {
          var k := hash(VnodeId(c.node.name, i));
          var j: nat :| j < r.replicas[r.vnodes[k]].1 && hash(VnodeId(r.vnodes[k], j)) == k;
          var d := NodesWereAdded(hash, before, r.vnodes[k]);
          VnodeIdInjective(c.node.name, i, d.node.name, j);
        }
      }
    }
  }

  // ---------- Round trips ----------

  /** A complete ring is determined by its nodes. */
  lemma SameNodesSameRing(hash: HashFunction, r: Ring, s: Ring)
    requires Exact(hash, r) && Exact(hash, s) && r.replicas == s.replicas
    ensures r == s
  {
    forall k | k in r.vnodes ensures k in s.vnodes && s.vnodes[k] == r.vnodes[k] {
      var i: nat :| i < r.replicas[r.vnodes[k]].1 && hash(VnodeId(r.vnodes[k], i)) == k;
      assert CompleteFor(hash, s, r.vnodes[k], s.replicas[r.vnodes[k]].1);
    }
    forall k | k in s.vnodes ensures k in r.vnodes {
      var i: nat :| i < s.replicas[s.vnodes[k]].1 && hash(VnodeId(s.vnodes[k], i)) == k;
      assert CompleteFor(hash, r, s.vnodes[k], r.replicas[s.vnodes[k]].1);
    }
    assert r.vnodes == s.vnodes;
  }

  lemma PutBackContents(hash: HashFunction, vnodes: map<Bytes, string>, name: string, n: nat, k: Bytes)
    ensures var back := Inserted(hash, Deleted(hash, vnodes, name, n), name, n);
            && (k in back <==> k in vnodes || IsReplica(hash, name, n, k))
            && (k in back ==> back[k] == if IsReplica(hash, name, n, k) then name else vnodes[k])
  {
    DeletedContents(hash, vnodes, name, n, k);
    InsertedContents(hash, Deleted(hash, vnodes, name, n), name, n, k);
  }

  /**
   Removing a node and adding it back with its replicas restores the ring if and only if all its
   replicas were on the ring.
   */
  lemma RemoveAddRestoresIff(hash: HashFunction, r: Ring, name: string)
    requires Registered(hash, r) && name in r.replicas
    ensures AddNode(hash, RemoveNode(hash, r, name), r.replicas[name].0, r.replicas[name].1) == r <==>
              CompleteFor(hash, r, name, r.replicas[name].1)
  {
    var (node, n) := r.replicas[name];
    var cleared := RemoveNode(hash, r, name);
    var restored := AddNode(hash, cleared, node, n);
    assert RemoveNode(hash, cleared, node.name) == cleared;
    assert restored.replicas == r.replicas;
    assert restored.vnodes == Inserted(hash, Deleted(hash, r.vnodes, name, n), name, n);
    forall k ensures k in restored.vnodes <==> k in r.vnodes || IsReplica(hash, name, n, k)
             ensures k in restored.vnodes ==>
                       restored.vnodes[k] == if IsReplica(hash, name, n, k) then name else r.vnodes[k]
    {
      PutBackContents(hash, r.vnodes, name, n, k);
    }
    if CompleteFor(hash, r, name, n) {
      assert restored.vnodes == r.vnodes;
    }
    if restored == r {
      forall i: nat | i < n
        ensures hash(VnodeId(name, i)) in r.vnodes && r.vnodes[hash(VnodeId(name, i))] == name
      {
        assert IsReplica(hash, name, n, hash(VnodeId(name, i)));
      }
    }
  }

  /** Adding a node that was not there and removing it again restores the ring if and only if it fits. */
  lemma AddRemoveRestoresIff(hash: HashFunction, r: Ring, node: Node, n: nat)
    requires Registered(hash, r) && node.name !in r.replicas
    ensures RemoveNode(hash, AddNode(hash, r, node, n), node.name) == r <==> Fits(hash, r, node.name, n)
  {
    var larger := AddNode(hash, r, node, n);
    var back := RemoveNode(hash, larger, node.name);
    assert back.replicas == r.replicas;
    forall k ensures k in back.vnodes <==> k in r.vnodes && !IsReplica(hash, node.name, n, k)
             ensures k in back.vnodes ==> back.vnodes[k] == r.vnodes[k]
    {
      InsertedContents(hash, r.vnodes, node.name, n, k);
      DeletedContents(hash, larger.vnodes, node.name, n, k);
    }
    if Fits(hash, r, node.name, n) {
      assert back.vnodes == r.vnodes;
    } else {
      var i: nat :| i < n && hash(VnodeId(node.name, i)) in r.vnodes;
      assert hash(VnodeId(node.name, i)) !in back.vnodes;
    }
  }

  // ---------- Empty rings ----------

  /** A complete ring has a virtual node if and only if some node has a replica. */
  lemma NotEmptyIff(hash: HashFunction, r: Ring)
    requires Exact(hash, r)
    ensures r.vnodes != map[] <==> exists name :: name in r.replicas && r.replicas[name].1 > 0
  {
    if name :| name in r.replicas && r.replicas[name].1 > 0 {
      assert CompleteFor(hash, r, name, r.replicas[name].1);
      assert hash(VnodeId(name, 0)) in r.vnodes;
    }
    if r.vnodes != map[] {
      var k :| k in r.vnodes;
      assert r.vnodes[k] in r.replicas && r.replicas[r.vnodes[k]].1 > 0;
    }
  }

  /** For every hash: removing a node empties the ring if and only if every virtual node is at one of its ids. */
  lemma RemoveEmptiesIff(hash: HashFunction, r: Ring, gone: string)
    requires gone in r.replicas
    ensures RemoveNode(hash, r, gone).vnodes == map[] <==>
              forall k :: k in r.vnodes ==> IsReplica(hash, gone, r.replicas[gone].1, k)
  {
    forall k ensures k in RemoveNode(hash, r, gone).vnodes <==>
                       k in r.vnodes && !IsReplica(hash, gone, r.replicas[gone].1, k)
    {
      DeletedContents(hash, r.vnodes, gone, r.replicas[gone].1, k);
    }
  }

  /** For every hash: adding a node leaves the ring empty if and only if it adds nothing to an empty one. */
  lemma AddEmptyIff(hash: HashFunction, r: Ring, node: Node, n: nat)
    ensures AddNode(hash, r, node, n).vnodes == map[] <==>
              n == 0 && RemoveNode(hash, r, node.name).vnodes == map[]
  {
    if n > 0 {
      InsertedContents(
        hash, RemoveNode(hash, r, node.name).vnodes, node.name, n, hash(VnodeId(node.name, 0)));
      assert IsReplica(hash, node.name, n, hash(VnodeId(node.name, 0)));
    }
  }

  /** Two nodes with one replica each and one hash: removing the second leaves the first without a place. */
  lemma CollisionEmptiesRing(hash: HashFunction, a: Node, b: Node)
    requires a.name != b.name && hash(VnodeId(a.name, 0)) == hash(VnodeId(b.name, 0))
    ensures var r := After(hash, [Add(a, 1), Add(b, 1), Remove(b.name)]);
            a.name in r.replicas && r.vnodes == map[]
  {
    var changes := [Add(a, 1), Add(b, 1), Remove(b.name)];
    assert changes[..2] == [Add(a, 1), Add(b, 1)];
    assert changes[..2][..1] == [Add(a, 1)];
    assert changes[..2][..1][..0] == [];
    var k, r1 := hash(VnodeId(a.name, 0)), AddNode(hash, EMPTY_RING, a, 1);
    var r2 := AddNode(hash, r1, b, 1);
    assert After(hash, changes[..2][..1]) == r1;
    assert After(hash, changes[..2]) == r2;
    assert Inserted(hash, map[], a.name, 1) == Inserted(hash, map[], a.name, 0)[k := a.name];
    assert Inserted(hash, r1.vnodes, b.name, 1) == Inserted(hash, r1.vnodes, b.name, 0)[k := b.name];
    assert r2.vnodes == map[k := b.name] && r2.replicas[b.name].1 == 1;
    assert forall x :: x in r2.vnodes ==> x == k && IsReplica(hash, b.name, 1, k);
    RemoveEmptiesIff(hash, r2, b.name);
  }
}
