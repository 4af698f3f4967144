/**
 The state that the loading cache guards with one lock, and the pieces of a load that work on it.

 `CacheContents` is the guarded state as a value; the methods of `CacheState` are the critical
 sections of the driver, each of which turns one such value into another.
 */
module LoadingCache {
  import opened Wrappers

  type Key = string
  type Value = string

  /** Loader tags are 64-bit numbers. */
  const TAGS: nat := 0x1_0000_0000_0000_0000

  /** A running load: which one it is, and the tag it was registered with. */
  datatype ValueLoader = ValueLoader(load: nat, tag: nat)

  datatype CacheContents = CacheContents(
    cached: map<Key, Value>, loaders: map<Key, ValueLoader>, nextTag: nat)

  const EMPTY_CACHE: CacheContents := CacheContents(map[], map[], 0)

  /** The next tag; after the largest one it starts over. */
  function TagAfter(tag: nat): (next: nat)
    requires tag < TAGS
    ensures next < TAGS && next == (tag + 1) % TAGS
  {
    if tag != TAGS - 1 then tag + 1 else 0
  }

  /** The load with this tag is the one registered for the key. */
  predicate InCharge(c: CacheContents, k: Key, tag: nat) {
    k in c.loaders && c.loaders[k].tag == tag
  }

  function WithLoader(c: CacheContents, k: Key, load: nat): CacheContents
    requires c.nextTag < TAGS
  {
    c.(loaders := c.loaders[k := ValueLoader(load, c.nextTag)], nextTag := TagAfter(c.nextTag))
  }

  function AfterPut(c: CacheContents, k: Key, v: Value): CacheContents {
    c.(loaders := c.loaders - {k}, cached := c.cached[k := v])
  }

  function AfterInvalidate(c: CacheContents, k: Key): CacheContents {
    c.(loaders := c.loaders - {k}, cached := c.cached - {k})
  }

  /** A load is over, with a value or without. Only the load in charge changes anything. */
  function AfterFinalize(c: CacheContents, k: Key, tag: nat, v: Option<Value>): CacheContents {
    if !InCharge(c, k, tag) then c
    else c.(loaders := c.loaders - {k}, cached := if v.None? then c.cached else c.cached[k := v.value])
  }

  datatype LookupResult = Hit(value: Value) | AlreadyLoading(load: nat) | Started(tag: nat)

  class CacheState {
    var cachedEntries: map<Key, Value>
    var loaders: map<Key, ValueLoader>
    var nextLoaderTag: nat

    ghost predicate Valid()
      reads this
    {
      nextLoaderTag < TAGS
    }

    function Contents(): CacheContents
      reads this
    {
      CacheContents(cachedEntries, loaders, nextLoaderTag)
    }

    constructor ()
      ensures Valid() && Contents() == EMPTY_CACHE
    {
      cachedEntries, loaders, nextLoaderTag := map[], map[], 0;
    }

    method NextLoaderTag() returns (tag: nat)
      requires Valid()
      modifies this`nextLoaderTag
      ensures Valid() && tag == old(nextLoaderTag) && nextLoaderTag == (tag + 1) % TAGS
    {
      tag := nextLoaderTag;
      if nextLoaderTag != TAGS - 1 {
        nextLoaderTag := nextLoaderTag + 1;
      } else {
        nextLoaderTag := 0;
      }
    }

    /** The critical section of `get`: a cached value, a running load to join, or a new load. */
    method LookupOrStart(k: Key, load: nat) returns (r: LookupResult)
      requires Valid()
      modifies this
      ensures Valid()
      ensures k in old(cachedEntries) ==> r == Hit(old(cachedEntries)[k]) && Contents() == old(Contents())
      ensures k !in old(cachedEntries) && k in old(loaders) ==>
                r == AlreadyLoading(old(loaders)[k].load) && Contents() == old(Contents())
      ensures k !in old(cachedEntries) && k !in old(loaders) ==>
                r == Started(old(nextLoaderTag)) && Contents() == WithLoader(old(Contents()), k, load)
    {
      if k in cachedEntries {
        return Hit(cachedEntries[k]);
      }
      if k in loaders {
        return AlreadyLoading(loaders[k].load);
      }
      var tag := NextLoaderTag();
      loaders := loaders[k := ValueLoader(load, tag)];
      r := Started(tag);
    }

    /** The critical section of `put`; displaced is the load that gets the side-loaded value. */
    method PutEntry(k: Key, v: Value) returns (displaced: Option<nat>)
      modifies this
      ensures Contents() == AfterPut(old(Contents()), k, v)
      ensures displaced == if k in old(loaders) then Some(old(loaders)[k].load) else None
    {
      displaced := None;
      if k in loaders {
        displaced := Some(loaders[k].load);
        loaders := loaders - {k};
      }
      cachedEntries := cachedEntries[k := v];
      assert loaders == old(loaders) - {k};
    }

    method InvalidateEntry(k: Key) returns (displaced: Option<nat>)
      modifies this
      ensures Contents() == AfterInvalidate(old(Contents()), k)
      ensures displaced == if k in old(loaders) then Some(old(loaders)[k].load) else None
    {
      displaced := None;
      if k in loaders {
        displaced := Some(loaders[k].load);
        loaders := loaders - {k};
      }
      cachedEntries := cachedEntries - {k};
      assert loaders == old(loaders) - {k};
    }
  }

  /** Submits the result of a load, at most once; a load that is dropped is still finalized. */
  class ResultSubmitter {
    const state: CacheState
    const tag: nat
    var k: Option<Key>
    var v: Option<Value>

    constructor (state: CacheState, k: Key, tag: nat)
      ensures this.state == state && this.tag == tag && this.k == Some(k) && this.v == None
    {
      this.state, this.tag, this.k, this.v := state, tag, Some(k), None;
    }

    method Submit(v: Value) returns (wasRunning: bool)
      requires k.Some? && this.v.None?
      modifies this, state
      ensures wasRunning == InCharge(old(state.Contents()), old(k).value, tag)
      ensures state.Contents() == AfterFinalize(old(state.Contents()), old(k).value, tag, Some(v))
      ensures k.None?
    {
      this.v := Some(v);
      wasRunning := Finalize();
    }

    method Finalize() returns (wasRunning: bool)
      requires k.Some?
      modifies this, state
      ensures wasRunning == InCharge(old(state.Contents()), old(k).value, tag)
      ensures state.Contents() == AfterFinalize(old(state.Contents()), old(k).value, tag, old(v))
      ensures k.None?
    {
      var key := k.value;
      k := None;
      if key in state.loaders && state.loaders[key].tag == tag {
        state.loaders := state.loaders - {key};
        if v.Some? {
          state.cachedEntries := state.cachedEntries[key := v.value];
          v := None;
        }
        wasRunning := true;
      } else {
        wasRunning := false;
      }
    }

    /** Dropping a submitter that has not been finalized finalizes it without a value. */
    method Drop()
      requires k.Some? ==> v.None?
      modifies this, state
      ensures state.Contents() ==
                if old(k).None? then old(state.Contents())
                else AfterFinalize(old(state.Contents()), old(k).value, tag, None)
    {
      if k.Some? {
        var _ := Finalize();
      }
    }
  }

  /** A future that is handed to a task of its own when its owner drops it too early. */
  class CancellationSafeFuture {
    var done: bool
    var inner: bool

    constructor ()
      ensures !done && inner
    {
      done, inner := false, true;
    }

    method Poll(ready: bool)
      requires !done && inner
      modifies this`done
      ensures done == ready
    {
      if ready {
        done := true;
      }
    }

    /** holders counts the owners of the join-handle cell: this future and possibly the loaders map. */
    method Drop(holders: nat) returns (spawned: bool)
      requires holders >= 1 && (!done ==> inner)
      modifies this`inner
      ensures spawned <==> !done && holders > 1
      ensures inner == (old(inner) && !spawned)
    {
      spawned := false;
      if !done {
        if holders > 1 {
          inner := false;
          spawned := true;
        }
      }
    }
  }
}
