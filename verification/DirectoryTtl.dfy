/** Deleting the shuffle directories of an executor that nobody has written to for a while. */
module DirectoryTtl {
  import opened Wrappers

  /**
   What a walk over the file system finds. Times are whole seconds since the epoch. A listing that
   is not complete fails after the children it names; the metadata of a Broken entry cannot be read.
   */
  datatype Entry =
    | File(modified: nat)
    | Directory(modified: nat, children: seq<Entry>, complete: bool)
    | Broken

  const NANOS := 1_000_000_000

  /** The whole second that lies the interval before now, and the epoch if there is none. */
  function TimeBefore(nowNanos: nat, seconds: nat): (r: nat)
    ensures r == if seconds <= nowNanos / NANOS then nowNanos / NANOS - seconds else 0
  {
    if nowNanos >= seconds * NANOS then (nowNanos - seconds * NANOS) / NANOS else 0
  }

  /** Something in the tree was modified after the cutoff. */
  predicate Newer(e: Entry, cutoff: nat)
    decreases e, 1
  {
    match e
    case File(modified) => modified > cutoff
    case Directory(modified, children, _) => modified > cutoff || AnyNewer(children, cutoff)
    case Broken => false
  }

  predicate AnyNewer(es: seq<Entry>, cutoff: nat)
    decreases es, 0
  {
    es != [] && (AnyNewer(es[..|es| - 1], cutoff) || Newer(es[|es| - 1], cutoff))
  }

  /** Everything in the tree can be looked at. */
  predicate Readable(e: Entry)
    decreases e, 1
  {
    match e
    case File(_) => true
    case Directory(_, children, complete) => complete && AllReadable(children)
    case Broken => false
  }

  predicate AllReadable(es: seq<Entry>)
    decreases es, 0
  {
    es == [] || (AllReadable(es[..|es| - 1]) && Readable(es[|es| - 1]))
  }

  // ---------- What the walk looks for ----------

  /** x is the entry itself or anywhere below it. */
  predicate Inside(e: Entry, x: Entry) {
    x == e || (e.Directory? && exists i :: 0 <= i < |e.children| && Inside(e.children[i], x))
  }

  /** The entry's metadata can be read, and its listing if it is a directory. */
  predicate Seen(x: Entry) {
    x.File? || (x.Directory? && x.complete)
  }

  lemma {:induction false} AnyNewerIff(es: seq<Entry>, cutoff: nat)
    ensures AnyNewer(es, cutoff) <==> exists i :: 0 <= i < |es| && Newer(es[i], cutoff)
  {
    if es != [] {
      var last := |es| - 1;
      AnyNewerIff(es[..last], cutoff);
      assert forall i :: 0 <= i < last ==> es[..last][i] == es[i];
    }
  }

  lemma {:induction false} AllReadableIff(es: seq<Entry>)
    ensures AllReadable(es) <==> forall i :: 0 <= i < |es| ==> Readable(es[i])
  {
    if es != [] {
      var last := |es| - 1;
      AllReadableIff(es[..last]);
      assert forall i :: 0 <= i < last ==> es[..last][i] == es[i];
    }
  }

  /** Newer means that some entry, at any depth, was modified after the cutoff. */
  lemma {:induction false} NewerIff(e: Entry, cutoff: nat)
    ensures Newer(e, cutoff) <==> exists x :: Inside(e, x) && !x.Broken? && x.modified > cutoff
  {
    if e.Directory? {
      AnyNewerIff(e.children, cutoff);
      forall i | 0 <= i < |e.children|
        ensures Newer(e.children[i], cutoff) <==>
                  exists x :: Inside(e.children[i], x) && !x.Broken? && x.modified > cutoff
      {
        NewerIff(e.children[i], cutoff);
      }
      if x :| Inside(e, x) && !x.Broken? && x.modified > cutoff && x != e {
        var i :| 0 <= i < |e.children| && Inside(e.children[i], x);
        assert Newer(e.children[i], cutoff);
      }
      if i :| 0 <= i < |e.children| && Newer(e.children[i], cutoff) {
        var x :| Inside(e.children[i], x) && !x.Broken? && x.modified > cutoff;
        assert Inside(e, x);
      }
    }
    assert Inside(e, e);
  }

  /** Readable means that every entry, at any depth, could be looked at. */
  lemma {:induction false} ReadableIff(e: Entry)
    ensures Readable(e) <==> forall x :: Inside(e, x) ==> Seen(x)
  {
    if e.Directory? {
      AllReadableIff(e.children);
      forall i | 0 <= i < |e.children|
        ensures Readable(e.children[i]) <==> forall x :: Inside(e.children[i], x) ==> Seen(x)
      {
        ReadableIff(e.children[i]);
      }
      if i :| 0 <= i < |e.children| && !Readable(e.children[i]) {
        var x :| Inside(e.children[i], x) && !Seen(x);
        assert Inside(e, x);
      }
    }
    assert Inside(e, e);
  }

  function Size(e: Entry): nat
    decreases e, 1
  {
    if e.Directory? then 1 + SizeOfAll(e.children) else 1
  }

  function SizeOfAll(es: seq<Entry>): nat
    decreases es, 0
  {
    if es == [] then 0 else SizeOfAll(es[..|es| - 1]) + Size(es[|es| - 1])
  }

  predicate AllDirectories(es: seq<Entry>) {
    forall i :: 0 <= i < |es| ==> es[i].Directory?
  }

  lemma {:induction false} PrefixBounds(es: seq<Entry>, n: nat, cutoff: nat)
    requires n <= |es|
    ensures AnyNewer(es[..n], cutoff) ==> AnyNewer(es, cutoff)
    ensures AllReadable(es) ==> AllReadable(es[..n])
    ensures SizeOfAll(es[..n]) <= SizeOfAll(es)
  {
    if n == |es| {
      assert es[..n] == es;
    } else {
      PrefixBounds(es[..|es| - 1], n, cutoff);
      assert es[..|es| - 1][..n] == es[..n];
    }
  }

  /**
   Looks at one directory of the work list: leaves its sub-directories to be checked, or says what
   ended the search.
   */
  method CheckChildren(children: seq<Entry>, complete: bool, cutoff: nat, toCheck0: seq<Entry>)
    returns (toCheck: seq<Entry>, outcome: Option<Result<bool, string>>)
    requires AllDirectories(toCheck0)
    ensures AllDirectories(toCheck)
    ensures outcome.None? ==>
              && (AnyNewer(toCheck, cutoff) <==> AnyNewer(toCheck0, cutoff) || AnyNewer(children, cutoff))
              && (AllReadable(toCheck) <==> AllReadable(toCheck0) && AllReadable(children))
              && SizeOfAll(toCheck) <= SizeOfAll(toCheck0) + SizeOfAll(children)
              && complete
    ensures outcome.Some? && outcome.value.Success? ==> outcome.value.value && AnyNewer(children, cutoff)
    ensures outcome.Some? && outcome.value.Failure? ==> !complete || !AllReadable(children)
  {
    toCheck, outcome := toCheck0, None;
    for i := 0 to |children|
      invariant AllDirectories(toCheck)
      invariant AnyNewer(toCheck, cutoff) <==> AnyNewer(toCheck0, cutoff) || AnyNewer(children[..i], cutoff)
      invariant AllReadable(toCheck) <==> AllReadable(toCheck0) && AllReadable(children[..i])
      invariant SizeOfAll(toCheck) <= SizeOfAll(toCheck0) + SizeOfAll(children[..i])
    {
      assert children[..i + 1][..i] == children[..i];
      PrefixBounds(children, i + 1, cutoff);
      var child := children[i];
      if child.Broken? {
        return toCheck, Some(Failure("metadata"));
      } else if child.Directory? {
        assert (toCheck + [child])[..|toCheck|] == toCheck;
        toCheck := toCheck + [child];
      } else if child.modified > cutoff {
        assert AnyNewer(children[..i + 1], cutoff);
        return toCheck, Some(Success(true));
      }
    }
    assert children[..|children|] == children;
    if !complete {
      outcome := Some(Failure("listing"));
    }
  }

  /**
   Does the directory hold anything modified after the cutoff? "No" is answered exactly when
   everything could be looked at and nothing is newer.
   */
  method SatisfyDirTtl(dir: Entry, nowNanos: nat, ttl: nat) returns (r: Result<bool, string>)
    ensures var cutoff := TimeBefore(nowNanos, ttl);
            && (r == Success(false) <==> dir.Directory? && Readable(dir) && !Newer(dir, cutoff))
            && (r == Success(true) ==> Newer(dir, cutoff))
            && (r.Failure? ==> !dir.Directory? || !Readable(dir))
  {
    var cutoff := TimeBefore(nowNanos, ttl);
    if dir.Broken? {
      return Failure("metadata");
    } else if dir.File? {
      return if dir.modified > cutoff then Success(true) else Failure("not a directory");
    }
    var toCheck := [dir];
    assert toCheck[..0] == [] && !AnyNewer([], cutoff) && AllReadable([]);
    while toCheck != []
      invariant AllDirectories(toCheck)
      invariant AnyNewer(toCheck, cutoff) <==> Newer(dir, cutoff)
      invariant AllReadable(toCheck) <==> Readable(dir)
      decreases SizeOfAll(toCheck)
    {
      var d := toCheck[|toCheck| - 1];
      var rest := toCheck[..|toCheck| - 1];
      if d.modified > cutoff {
        return Success(true);
      }
      assert Newer(d, cutoff) <==> AnyNewer(d.children, cutoff);
      assert Readable(d) <==> d.complete && AllReadable(d.children);
      assert SizeOfAll(toCheck) == SizeOfAll(rest) + 1 + SizeOfAll(d.children);
      var outcome;
      toCheck, outcome := CheckChildren(d.children, d.complete, cutoff, rest);
      if outcome.Some? {
        return outcome.value;
      }
    }
    return Success(false);
  }

  /** A directory is old when all of it can be looked at and nothing in it is newer than the cutoff. */
  predicate Old(e: Entry, cutoff: nat) {
    e.Directory? && Readable(e) && !Newer(e, cutoff)
  }

  /**
   One round of cleaning up the working directory, given as its listing; the clock is read anew for
   every entry. Nothing is deleted when the listing fails; otherwise exactly the old directories are,
   and never a plain file.
   */
  method CleanShuffleData(workDir: seq<Entry>, complete: bool, clock: nat -> nat, ttl: nat)
    returns (r: Result<seq<nat>, string>)
    ensures r.Failure? <==> !complete
    ensures r.Success? ==>
              forall i :: i in r.value <==> 0 <= i < |workDir| && Old(workDir[i], TimeBefore(clock(i), ttl))
  {
    var toDelete: seq<nat> := [];
    for i := 0 to |workDir|
      invariant forall k :: k in toDelete <==> 0 <= k < i && Old(workDir[k], TimeBefore(clock(k), ttl))
    {
      if workDir[i].Directory? {
        var satisfied := SatisfyDirTtl(workDir[i], clock(i), ttl);
        if satisfied == Success(false) {
          toDelete := toDelete + [i];
        }
      }
    }
    r := if complete then Success(toDelete) else Failure("listing");
  }
}
