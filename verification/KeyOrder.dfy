/**
 Hash values in the order of a `BTreeMap<Vec<u8>, _>`: byte sequences compared lexicographically, and
 the keys of such a map in ascending order or clockwise from a given point.
 */
module KeyOrder {

  newtype byte = b: int | 0 <= b < 256

  type Bytes = seq<byte>

  predicate Less(a: Bytes, b: Bytes) {
    if b == [] then false
    else if a == [] then true
    else a[0] < b[0] || (a[0] == b[0] && Less(a[1..], b[1..]))
  }

  /** The sequences agree on their first n bytes, and there a ends or has the lower byte. */
  predicate LowerAt(a: Bytes, b: Bytes, n: nat) {
    n <= |a| && n < |b| && a[..n] == b[..n] && (n == |a| || a[n] < b[n])
  }

  /** The order is decided where the sequences first differ. */
  lemma {:induction false} LessIff(a: Bytes, b: Bytes)
    ensures Less(a, b) <==> exists n: nat :: LowerAt(a, b, n)
  {
    if a == [] || b == [] {
      assert b != [] ==> LowerAt([], b, 0);
    } else {
      LessIff(a[1..], b[1..]);
      if n: nat :| LowerAt(a[1..], b[1..], n) {
        if a[0] == b[0] {
          assert a[..n + 1] == [a[0]] + a[1..][..n] && b[..n + 1] == [b[0]] + b[1..][..n];
          assert LowerAt(a, b, n + 1);
        }
      }
      if a[0] < b[0] {
        assert LowerAt(a, b, 0);
      }
      if n: nat :| LowerAt(a, b, n) {
        LowerBehind(a, b, n);
      }
    }
  }

  lemma LowerBehind(a: Bytes, b: Bytes, n: nat)
    requires a != [] && LowerAt(a, b, n)
    ensures if n == 0 then a[0] < b[0] else a[0] == b[0] && LowerAt(a[1..], b[1..], n - 1)
  {
    if n > 0 {
      assert a[0] == a[..n][0] && b[0] == b[..n][0];
      assert a[1..][..n - 1] == a[..n][1..] && b[1..][..n - 1] == b[..n][1..];
    }
  }

  lemma {:induction false} LessIsTotal(a: Bytes, b: Bytes)
    ensures a == b || Less(a, b) || Less(b, a)
    ensures !(Less(a, b) && Less(b, a)) && !Less(a, a)
  {
    if a != [] && b != [] {
      LessIsTotal(a[1..], b[1..]);
      assert a == [a[0]] + a[1..] && b == [b[0]] + b[1..];
    }
    if a != [] {
      LessIsIrreflexive(a);
    }
  }

  lemma {:induction false} LessIsIrreflexive(a: Bytes)
    ensures !Less(a, a)
  {
    if a != [] {
      LessIsIrreflexive(a[1..]);
    }
  }

  lemma {:induction false} LessIsTransitive(a: Bytes, b: Bytes, c: Bytes)
    requires Less(a, b) && Less(b, c)
    ensures Less(a, c)
  {
    if a != [] && a[0] == b[0] == c[0] {
      LessIsTransitive(a[1..], b[1..], c[1..]);
    }
  }

  // ---------- Ascending order ----------

  predicate IsLeast(k: Bytes, s: set<Bytes>) {
    k in s && forall k' :: k' in s && k' != k ==> Less(k, k')
  }

  lemma {:induction false} LeastExists(s: set<Bytes>)
    requires s != {}
    ensures exists k :: IsLeast(k, s)
    decreases |s|
  {
    var x :| x in s;
    if s == {x} {
      assert IsLeast(x, s);
    } else {
      var rest := s - {x};
      assert s == rest + {x};
      LeastExists(rest);
      var k :| IsLeast(k, rest);
      LessIsTotal(k, x);
      if Less(k, x) {
        assert IsLeast(k, s);
      } else {
        forall k' | k' in s && k' != x ensures Less(x, k') {
          if k' != k {
            LessIsTransitive(x, k, k');
          }
        }
        assert IsLeast(x, s);
      }
    }
  }

  lemma LeastIsUnique(s: set<Bytes>)
    ensures forall k, k' :: IsLeast(k, s) && IsLeast(k', s) ==> k == k'
  {
    forall k, k' | IsLeast(k, s) && IsLeast(k', s) ensures k == k' {
      LessIsTotal(k, k');
    }
  }

  function Least(s: set<Bytes>): (k: Bytes)
    requires s != {}
    ensures IsLeast(k, s)
  {
    LeastExists(s);
    LeastIsUnique(s);
    var k :| IsLeast(k, s);
    k
  }

  /** The keys in ascending order, as a BTreeMap iterates over them. */
  function Ascending(s: set<Bytes>): seq<Bytes>
    decreases |s|
  {
    if s == {} then []
    else
      var k := Least(s);
      assert |s - {k}| < |s|;
      [k] + Ascending(s - {k})
  }

  lemma AscendingStep(s: set<Bytes>, k: Bytes)
    requires IsLeast(k, s)
    ensures Ascending(s) == [k] + Ascending(s - {k})
  {
    LeastIsUnique(s);
  }

  predicate Rising(ks: seq<Bytes>) {
    forall i, j :: 0 <= i < j < |ks| ==> Less(ks[i], ks[j])
  }

  lemma RisingFrom(k: Bytes, ks: seq<Bytes>)
    requires Rising(ks) && forall x :: x in ks ==> Less(k, x)
    ensures Rising([k] + ks)
  {
    var all := [k] + ks;
    forall i, j | 0 <= i < j < |all| ensures Less(all[i], all[j]) {
      assert all[j] == ks[j - 1];
    }
  }

  /** Each key once, in order. */
  lemma {:induction false} AscendingListsAll(s: set<Bytes>)
    ensures |Ascending(s)| == |s|
    ensures forall k :: k in Ascending(s) <==> k in s
    ensures Rising(Ascending(s))
    decreases |s|
  {
    if s != {} {
      var k := Least(s);
      AscendingListsAll(s - {k});
      assert s == (s - {k}) + {k};
      RisingFrom(k, Ascending(s - {k}));
    }
  }

  // ---------- Leaving keys out ----------

  function Without(ks: seq<Bytes>, dropped: set<Bytes>): seq<Bytes> {
    if ks == [] then []
    else if ks[0] in dropped then Without(ks[1..], dropped)
    else [ks[0]] + Without(ks[1..], dropped)
  }

  lemma {:induction false} WithoutConcat(a: seq<Bytes>, b: seq<Bytes>, dropped: set<Bytes>)
    ensures Without(a + b, dropped) == Without(a, dropped) + Without(b, dropped)
  {
    if a == [] {
      assert a + b == b;
    } else {
      assert (a + b)[1..] == a[1..] + b;
      WithoutConcat(a[1..], b, dropped);
    }
  }

  lemma {:induction false} AscendingWithout(s: set<Bytes>, dropped: set<Bytes>)
    ensures Ascending(s - dropped) == Without(Ascending(s), dropped)
    decreases |s|
  {
    if s == {} {
      assert s - dropped == {};
    } else {
      var k := Least(s);
      AscendingWithout(s - {k}, dropped);
      assert Ascending(s)[1..] == Ascending(s - {k});
      if k in dropped {
        assert (s - {k}) - dropped == s - dropped;
      } else {
        assert IsLeast(k, s - dropped);
        AscendingStep(s - dropped, k);
        assert (s - {k}) - dropped == (s - dropped) - {k};
      }
    }
  }

  // ---------- Clockwise order ----------

  function From(s: set<Bytes>, h: Bytes): set<Bytes> {
    set k | k in s && !Less(k, h)
  }

  function Before(s: set<Bytes>, h: Bytes): set<Bytes> {
    set k | k in s && Less(k, h)
  }

  /** All keys, starting at h and wrapping around. */
  function Clockwise(s: set<Bytes>, h: Bytes): seq<Bytes> {
    Ascending(From(s, h)) + Ascending(Before(s, h))
  }

  lemma NoneBefore(s: set<Bytes>, h: Bytes, k: Bytes)
    requires IsLeast(k, s) && !Less(k, h)
    ensures Before(s, h) == {} && From(s, h) == s
  {
    forall k' | k' in s ensures !Less(k', h) {
      if k' != k && Less(k', h) {
        LessIsTransitive(k, k', h);
      }
    }
  }

  /** Ascending order is the keys before h followed by those from h on. */
  lemma {:induction false} AscendingSplits(s: set<Bytes>, h: Bytes)
    ensures Ascending(s) == Ascending(Before(s, h)) + Ascending(From(s, h))
    decreases |s|
  {
    if s != {} {
      var k := Least(s);
      if Less(k, h) {
        AscendingSplits(s - {k}, h);
        SplitStep(s, h, k);
      } else {
        NoneBefore(s, h, k);
      }
    }
  }

  lemma SplitStep(s: set<Bytes>, h: Bytes, k: Bytes)
    requires IsLeast(k, s) && Less(k, h)
    requires Ascending(s - {k}) == Ascending(Before(s - {k}, h)) + Ascending(From(s - {k}, h))
    ensures Ascending(s) == Ascending(Before(s, h)) + Ascending(From(s, h))
  {
    AscendingStep(s, k);
    LeastBefore(s, h, k);
    AscendingStep(Before(s, h), k);
    InFront(k, Ascending(Before(s, h) - {k}), Ascending(From(s, h)));
  }

  lemma InFront(k: Bytes, a: seq<Bytes>, b: seq<Bytes>)
    ensures [k] + (a + b) == ([k] + a) + b
  {}

  lemma LeastBefore(s: set<Bytes>, h: Bytes, k: Bytes)
    requires IsLeast(k, s) && Less(k, h)
    ensures IsLeast(k, Before(s, h))
    ensures Before(s - {k}, h) == Before(s, h) - {k} && From(s - {k}, h) == From(s, h)
  {}

  predicate Distinct(ks: seq<Bytes>) {
    forall i, j :: 0 <= i < j < |ks| ==> ks[i] != ks[j]
  }

  lemma AscendingIsDistinct(s: set<Bytes>)
    ensures Distinct(Ascending(s))
  {
    AscendingListsAll(s);
    var ks := Ascending(s);
    forall i, j | 0 <= i < j < |ks| ensures ks[i] != ks[j] {
      LessIsIrreflexive(ks[i]);
    }
  }

  lemma DistinctConcat(a: seq<Bytes>, b: seq<Bytes>)
    requires Distinct(a) && Distinct(b)
    requires forall k :: k in a ==> k !in b
    ensures Distinct(a + b)
  {
    var ks := a + b;
    forall i, j | 0 <= i < j < |ks| ensures ks[i] != ks[j] {
      if i < |a| <= j {
        assert ks[i] in a && ks[j] in b;
      }
    }
  }

  /** Clockwise order visits every key exactly once. */
  lemma ClockwiseVisitsAll(s: set<Bytes>, h: Bytes)
    ensures |Clockwise(s, h)| == |s|
    ensures forall k :: k in Clockwise(s, h) <==> k in s
    ensures Distinct(Clockwise(s, h))
  {
    var f, b := From(s, h), Before(s, h);
    AscendingListsAll(f);
    AscendingListsAll(b);
    AscendingIsDistinct(f);
    AscendingIsDistinct(b);
    DistinctConcat(Ascending(f), Ascending(b));
    assert s == f + b && f !! b;
  }

  lemma ClockwiseWithout(s: set<Bytes>, h: Bytes, dropped: set<Bytes>)
    ensures Clockwise(s - dropped, h) == Without(Clockwise(s, h), dropped)
  {
    assert From(s - dropped, h) == From(s, h) - dropped;
    assert Before(s - dropped, h) == Before(s, h) - dropped;
    AscendingWithout(From(s, h), dropped);
    AscendingWithout(Before(s, h), dropped);
    WithoutConcat(Ascending(From(s, h)), Ascending(Before(s, h)), dropped);
  }

  // ---------- What lies between ----------

  /** On the way up from h to k, starting over at the lowest key if k is below h, x comes before k. */
  predicate Passed(h: Bytes, k: Bytes, x: Bytes) {
    if Less(k, h) then !Less(x, h) || Less(x, k) else !Less(x, h) && Less(x, k)
  }

  function PassedKeys(s: set<Bytes>, h: Bytes, k: Bytes): set<Bytes> {
    set x | x in s && Passed(h, k, x)
  }

  lemma AscendingIff(s: set<Bytes>, i: nat, j: nat)
    requires i < |Ascending(s)| && j < |Ascending(s)|
    ensures Less(Ascending(s)[i], Ascending(s)[j]) <==> i < j
  {
    AscendingListsAll(s);
    LessIsTotal(Ascending(s)[i], Ascending(s)[j]);
  }

  lemma ClockwiseSides(s: set<Bytes>, h: Bytes, i: nat)
    requires i < |Clockwise(s, h)|
    ensures var f := Ascending(From(s, h));
            Less(Clockwise(s, h)[i], h) <==> i >= |f|
  {
    var f, b := Ascending(From(s, h)), Ascending(Before(s, h));
    AscendingListsAll(From(s, h));
    AscendingListsAll(Before(s, h));
    if i < |f| {
      assert f[i] in f;
    } else {
      assert b[i - |f|] in b;
    }
  }

  /** Clockwise order is the order in which keys are passed. */
  lemma PassedIff(s: set<Bytes>, h: Bytes, i: nat, j: nat)
    requires i < |Clockwise(s, h)| && j < |Clockwise(s, h)|
    ensures Passed(h, Clockwise(s, h)[j], Clockwise(s, h)[i]) <==> i < j
  {
    var f := Ascending(From(s, h));
    ClockwiseSides(s, h, i);
    ClockwiseSides(s, h, j);
    if i < |f| && j < |f| {
      AscendingIff(From(s, h), i, j);
    } else if i >= |f| && j >= |f| {
      AscendingIff(Before(s, h), i - |f|, j - |f|);
    }
  }

  function Members(ks: seq<Bytes>): set<Bytes> {
    set k | k in ks
  }

  lemma {:induction false} DistinctCount(ks: seq<Bytes>)
    requires Distinct(ks)
    ensures |Members(ks)| == |ks|
  {
    if ks != [] {
      var front, last := ks[..|ks| - 1], ks[|ks| - 1];
      DistinctCount(front);
      assert ks == front + [last];
      assert Members(ks) == Members(front) + {last} && last !in front;
    }
  }

  /** The keys passed on the way to the j-th key clockwise are the j keys before it. */
  lemma ClockwisePassed(s: set<Bytes>, h: Bytes, j: nat)
    requires j < |Clockwise(s, h)|
    ensures PassedKeys(s, h, Clockwise(s, h)[j]) == Members(Clockwise(s, h)[..j])
    ensures |PassedKeys(s, h, Clockwise(s, h)[j])| == j
  {
    var ks := Clockwise(s, h);
    ClockwiseVisitsAll(s, h);
    forall x ensures x in PassedKeys(s, h, ks[j]) <==> x in ks[..j] {
      assert x in ks[..j] ==> x in ks;
      if x in s {
        var i :| 0 <= i < |ks| && ks[i] == x;
        PassedIff(s, h, i, j);
      }
    }
    DistinctCount(ks[..j]);
  }
}
