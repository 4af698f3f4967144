/**
 What a `get` returns: the value that was cached for its key when it asked, or the one that a load of its
 key, or a put for its key, produced while it waited. And when a key is cached at all.
 */
module CacheGetters {
  import opened Wrappers
  import opened LoadingCache
  import opened CacheProtocol
  import opened CacheHistory

  // ---------- Which load a getter waits for ----------

  /** The step is a get of the key that did not find it cached. */
  predicate Misses(step: Step, g: nat, k: Key) {
    step == GetJoin(g, k) || step == GetStart(g, k)
  }

  /** The getter waits for the load, which is one of its key, or has been served by it or given up. */
  predicate HasLoad(s: State, g: nat, l: nat, k: Key) {
    && g in s.getters && l < |s.loads| && s.loads[l].key == k
    && match s.getters[g]
       case Waiting(m) => m == l
       case Returned(from, _) => from == Some(l)
       case Panicked(m) => m == l
       case Cancelled => true
  }

  lemma MissFindsLoad(s: State, step: Step, g: nat, k: Key)
    requires Inv(s) && Enabled(s, step) && Misses(step, g, k)
    ensures var s' := Next(s, step);
            && g in s'.getters && s'.getters[g].Waiting?
            && Registered(s', s'.getters[g].load) && HasLoad(s', g, s'.getters[g].load, k)
  {}

  lemma HasLoadNext(s: State, step: Step, g: nat, l: nat, k: Key)
    requires Enabled(s, step) && HasLoad(s, g, l, k)
    ensures HasLoad(Next(s, step), g, l, k)
  {
    LoadsKeepTags(s, step, l);
  }

  /** A get that misses waits for the load that is registered for its key. */
  lemma WaitsForItsKey(states: seq<State>, steps: seq<Step>, i: nat, g: nat, k: Key) returns (l: nat)
    requires IsRun(states, steps) && i < |steps| && Misses(steps[i], g, k)
    ensures g in states[i + 1].getters && states[i + 1].getters[g] == Waiting(l)
    ensures Registered(states[i + 1], l) && HasLoad(states[i + 1], g, l, k)
  {
    assert Follows(states, steps, i);
    InvAlways(states, steps, i);
    MissFindsLoad(states[i], steps[i], g, k);
    l := states[i + 1].getters[g].load;
  }

  /** It never changes to another load. */
  lemma {:induction false} KeepsItsLoad(states: seq<State>, steps: seq<Step>, i: nat, n: nat, g: nat, l: nat, k: Key)
    requires IsRun(states, steps) && i <= n <= |steps| && HasLoad(states[i], g, l, k)
    ensures HasLoad(states[n], g, l, k)
  {
    if i < n {
      KeepsItsLoad(states, steps, i, n - 1, g, l, k);
      assert Follows(states, steps, n - 1);
      HasLoadNext(states[n - 1], steps[n - 1], g, l, k);
    }
  }

  // ---------- What a getter returns ----------

  lemma ResolvedIsUnregistered(s: State, step: Step, l: nat, v: Value)
    requires Inv(s) && Enabled(s, step) && Resolves(s, step, l, v)
    ensures l < |Next(s, step).loads| && !Registered(Next(s, step), l)
  {}

  lemma {:induction false} StaysUnregistered(states: seq<State>, steps: seq<Step>, i: nat, n: nat, l: nat)
    requires IsRun(states, steps) && i <= n <= |steps| && l < |states[i].loads| && !Registered(states[i], l)
    ensures !Registered(states[n], l)
  {
    if i < n {
      StaysUnregistered(states, steps, i, n - 1, l);
      LoadsGrow(states, steps, i, n - 1);
      if Registered(states[n], l) {
        RegisteredOneBack(states, steps, n, l);
      }
    }
  }

  /** A load that is still registered has not been given its value yet. */
  lemma NotResolvedYet(states: seq<State>, steps: seq<Step>, j: nat, n: nat, l: nat, v: Value)
    requires IsRun(states, steps) && j < |steps| && n <= |steps|
    requires Resolves(states[j], steps[j], l, v) && Registered(states[n], l)
    ensures n <= j
  {
    if j < n {
      assert Follows(states, steps, j);
      InvAlways(states, steps, j);
      ResolvedIsUnregistered(states[j], steps[j], l, v);
      StaysUnregistered(states, steps, j + 1, n, l);
    }
  }

  /** The step gives the value to those who wait for the key: a put, or a load of the key that finishes. */
  predicate Produces(s: State, step: Step, k: Key, v: Value) {
    || step == Put(k, v)
    || (step.Submit? && step.value == v && Registered(s, step.load) && s.loads[step.load].key == k)
  }

  /**
   A get that misses returns a value that was put for its key, or with which a load of its key finished,
   after it asked.
   */
  lemma MissReturns(states: seq<State>, steps: seq<Step>, i: nat, n: nat, g: nat, k: Key) returns (j: nat)
    requires IsRun(states, steps) && TagsNeverClash(states, steps) && i < n <= |steps| && Misses(steps[i], g, k)
    requires g in states[n].getters && states[n].getters[g].Returned?
    ensures i < j < n && Produces(states[j], steps[j], k, states[n].getters[g].value)
  {
    var l := WaitsForItsKey(states, steps, i, g, k);
    KeepsItsLoad(states, steps, i + 1, n, g, l, k);
    SoundAlways(states, steps, n);
    var v := states[n].getters[g].value;
    j := ResultOrigin(states, steps, n, l, v);
    NotResolvedYet(states, steps, j, i + 1, l, v);
    KeepsItsLoad(states, steps, i + 1, j, g, l, k);
  }

  predicate HasReturned(s: State, g: nat, v: Value) {
    g in s.getters && s.getters[g] == Returned(None, v)
  }

  lemma {:induction false} StaysReturned(states: seq<State>, steps: seq<Step>, i: nat, n: nat, g: nat, v: Value)
    requires IsRun(states, steps) && i <= n <= |steps| && HasReturned(states[i], g, v)
    ensures HasReturned(states[n], g, v)
  {
    if i < n {
      StaysReturned(states, steps, i, n - 1, g, v);
      assert Follows(states, steps, n - 1);
    }
  }

  /** A get that hits returns what was cached for its key when it asked. */
  lemma HitReturns(states: seq<State>, steps: seq<Step>, i: nat, n: nat, g: nat, k: Key)
    requires IsRun(states, steps) && i < n <= |steps| && steps[i] == GetHit(g, k)
    ensures k in states[i].cache.cached && HasReturned(states[n], g, states[i].cache.cached[k])
  {
    assert Follows(states, steps, i);
    StaysReturned(states, steps, i + 1, n, g, states[i].cache.cached[k]);
  }

  lemma {:induction false} NotLoadingAgain(states: seq<State>, steps: seq<Step>, i: nat, n: nat, l: nat)
    requires IsRun(states, steps) && i <= n <= |steps|
    requires l < |states[i].loads| && !states[i].loads[l].phase.Loading?
    ensures l < |states[n].loads| && !states[n].loads[l].phase.Loading?
  {
    if i < n {
      NotLoadingAgain(states, steps, i, n - 1, l);
      assert Follows(states, steps, n - 1);
      LoadsKeepTags(states[n - 1], steps[n - 1], l);
    }
  }

  /** The loader of a load finishes at most once. */
  lemma SubmitsOnce(states: seq<State>, steps: seq<Step>, i: nat, j: nat)
    requires IsRun(states, steps) && i < j < |steps| && steps[i].Submit? && steps[j].Submit?
    ensures steps[i].load != steps[j].load
  {
    assert Follows(states, steps, i) && Follows(states, steps, j);
    NotLoadingAgain(states, steps, i + 1, j, steps[i].load);
  }

  // ---------- Values get through ----------

  predicate Waits(s: State, g: nat, l: nat) {
    g in s.getters && s.getters[g] == Waiting(l)
  }

  predicate Gets(s: State, g: nat, l: nat, v: Value) {
    g in s.getters && s.getters[g] == Returned(Some(l), v)
  }

  /** A registered load can finish with any value, and whoever waits for it then gets that value. */
  lemma LoadGetsThrough(s: State, l: nat, g: nat, v: Value)
    requires Sound(s) && Registered(s, l) && Waits(s, g, l)
    ensures Enabled(s, Submit(l, v))
    ensures var s1 := Next(s, Submit(l, v));
            && Enabled(s1, Broadcast(l))
            && var s2 := Next(s1, Broadcast(l));
               Enabled(s2, Return(g)) && Gets(Next(s2, Return(g)), g, l, v)
  {
    InChargeIsRegistered(s, l);
  }

  /** A put reaches the registered load of its key, and whoever waits for it then gets the value of the put. */
  lemma PutGetsThrough(s: State, l: nat, g: nat, v: Value)
    requires Inv(s) && Registered(s, l) && Waits(s, g, l)
    ensures var s1 := Next(s, Put(s.loads[l].key, v));
            && Enabled(s1, SideDeliver(l))
            && var s2 := Next(s1, SideDeliver(l));
               Enabled(s2, Return(g)) && Gets(Next(s2, Return(g)), g, l, v)
  {}

  // ---------- What is cached ----------

  predicate Caches(s: State, k: Key, v: Value) {
    k in s.cache.cached && s.cache.cached[k] == v
  }

  /** A step caches what it writes, drops what it displaces or evicts, and keeps every other value. */
  lemma CachedNext(s: State, step: Step, k: Key, v: Value)
    requires Enabled(s, step)
    ensures Caches(Next(s, step), k, v) <==>
              || Writes(s, step, k, v)
              || (Caches(s, k, v) && !Touches(s, step, k) && step != Evict(k))
  {}

  /** Step j wrote the value, and nothing has touched or evicted the key before step n. */
  ghost predicate LastWritten(states: seq<State>, steps: seq<Step>, j: nat, n: nat, k: Key, v: Value)
    requires |states| == |steps| + 1 && n <= |steps|
  {
    && j < n && Writes(states[j], steps[j], k, v)
    && forall m :: j < m < n ==> !Touches(states[m], steps[m], k) && steps[m] != Evict(k)
  }

  /** In every run: a key is cached with a value if and only if that was the last thing to happen to it. */
  lemma {:induction false} CachedIff(states: seq<State>, steps: seq<Step>, n: nat, k: Key, v: Value)
    requires IsRun(states, steps) && n <= |steps|
    ensures Caches(states[n], k, v) <==> exists j: nat :: LastWritten(states, steps, j, n, k, v)
  {
    if n > 0 {
      var s, step := states[n - 1], steps[n - 1];
      assert Follows(states, steps, n - 1);
      CachedIff(states, steps, n - 1, k, v);
      CachedNext(s, step, k, v);
      if Writes(s, step, k, v) {
        assert LastWritten(states, steps, n - 1, n, k, v);
      } else if !Touches(s, step, k) && step != Evict(k) {
        LastWrittenBefore(states, steps, n - 1, n, k, v);
      }
    }
  }

  lemma LastWrittenBefore(states: seq<State>, steps: seq<Step>, m: nat, n: nat, k: Key, v: Value)
    requires |states| == |steps| + 1 && n == m + 1 <= |steps|
    requires !Writes(states[m], steps[m], k, v) && !Touches(states[m], steps[m], k) && steps[m] != Evict(k)
    ensures (exists j: nat :: LastWritten(states, steps, j, n, k, v)) <==>
              exists j: nat :: LastWritten(states, steps, j, m, k, v)
  {
    if j: nat :| LastWritten(states, steps, j, n, k, v) {
      assert LastWritten(states, steps, j, m, k, v);
    }
    if j: nat :| LastWritten(states, steps, j, m, k, v) {
      assert LastWritten(states, steps, j, n, k, v);
    }
  }
}
