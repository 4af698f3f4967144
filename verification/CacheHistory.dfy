/**
 What can be said about the past of a loading cache: where cached and returned values come from, and
 why a load can fail. Some claims are about every run in which live tags do not wrap onto each other;
 every run with at most 2^64 loads is one.
 */
module CacheHistory {
  import opened Wrappers
  import opened LoadingCache
  import opened CacheProtocol

  // ---------- Tags ----------

  /** The l-th load has the tag l, modulo 2^64. */
  ghost predicate TagsCount(s: State) {
    && s.cache.nextTag == |s.loads| % TAGS
    && forall l :: 0 <= l < |s.loads| ==> s.loads[l].tag == l % TAGS
  }

  lemma TagsCountNext(s: State, step: Step)
    requires TagsCount(s) && Enabled(s, step)
    ensures TagsCount(Next(s, step))
  {
    var s' := Next(s, step);
    if step.GetStart? {
      assert s'.loads == s.loads + [s'.loads[|s.loads|]];
      ModuloStep(|s.loads|);
    } else {
      assert |s'.loads| == |s.loads|;
      assert forall l :: 0 <= l < |s.loads| ==> s'.loads[l].tag == s.loads[l].tag;
    }
  }

  lemma {:induction false} TagsAlwaysCount(states: seq<State>, steps: seq<Step>, n: nat)
    requires IsRun(states, steps) && n <= |steps|
    ensures TagsCount(states[n])
  {
    if n > 0 {
      TagsAlwaysCount(states, steps, n - 1);
      assert Follows(states, steps, n - 1);
      TagsCountNext(states[n - 1], steps[n - 1]);
    }
  }

  lemma ModuloStep(n: nat)
    ensures (n % TAGS + 1) % TAGS == (n + 1) % TAGS
  {}

  lemma {:induction false} LoadsGrow(states: seq<State>, steps: seq<Step>, i: nat, n: nat)
    requires IsRun(states, steps) && i <= n <= |steps|
    ensures |states[i].loads| <= |states[n].loads|
  {
    if i < n {
      LoadsGrow(states, steps, i, n - 1);
      assert Follows(states, steps, n - 1);
    }
  }

  /** Tags cannot clash in a run with at most 2^64 loads. */
  lemma TagsSuffice(states: seq<State>, steps: seq<Step>)
    requires IsRun(states, steps) && |states[|steps|].loads| <= TAGS
    ensures TagsNeverClash(states, steps)
  {
    forall i | 0 <= i < |steps| && steps[i].GetStart? ensures FreshTag(states[i], steps[i].key) {
      TagsAlwaysCount(states, steps, i);
      LoadsGrow(states, steps, i + 1, |steps|);
      assert Follows(states, steps, i);
    }
  }

  // ---------- Who wrote the cache ----------

  /** The step stores v for k: a put, or a load that is in charge when it finishes. */
  predicate Writes(s: State, step: Step, k: Key, v: Value) {
    || step == Put(k, v)
    || (step.Submit? && step.value == v && Stores(s, step, k))
  }

  predicate Stores(s: State, step: Step, k: Key)
    requires step.Submit?
  {
    step.load < |s.loads| && s.loads[step.load].key == k && InCharge(s.cache, k, s.loads[step.load].tag)
  }

  /** The step takes any running load for k out of the map. */
  predicate Displaces(step: Step, k: Key) {
    (step.Put? || step.Invalidate?) && step.key == k
  }

  predicate Touches(s: State, step: Step, k: Key) {
    Displaces(step, k) || (step.Submit? && Stores(s, step, k))
  }

  /** What is cached after a step was written by it, or was there before and was not touched. */
  lemma CachedBackwards(s: State, step: Step, k: Key)
    requires Enabled(s, step) && k in Next(s, step).cache.cached
    ensures var v := Next(s, step).cache.cached[k];
            Writes(s, step, k, v) || (k in s.cache.cached && s.cache.cached[k] == v && !Touches(s, step, k))
  {}

  /** A cached value is that of the latest step that touched its key. */
  lemma {:induction false} LatestWrite(states: seq<State>, steps: seq<Step>, n: nat, k: Key) returns (j: nat)
    requires IsRun(states, steps) && n <= |steps|
    requires k in states[n].cache.cached
    ensures j < n && Writes(states[j], steps[j], k, states[n].cache.cached[k])
    ensures forall m :: j < m < n ==> !Touches(states[m], steps[m], k)
  {
    var s, step := states[n - 1], steps[n - 1];
    assert Follows(states, steps, n - 1);
    CachedBackwards(s, step, k);
    if Writes(s, step, k, states[n].cache.cached[k]) {
      j := n - 1;
    } else {
      j := LatestWrite(states, steps, n - 1, k);
    }
  }

  // ---------- How long a load stays registered ----------

  ghost predicate Starts(s: State, step: Step, l: nat, k: Key) {
    step.GetStart? && step.key == k && |s.loads| == l
  }

  lemma RegisteredBackwards(s: State, step: Step, l: nat)
    requires Inv(s) && Enabled(s, step) && Registered(Next(s, step), l)
    ensures var k := Next(s, step).loads[l].key;
            || Starts(s, step, l, k)
            || (Registered(s, l) && s.loads[l].key == k && !Displaces(step, k))
  {}

  lemma RegisteredOneBack(states: seq<State>, steps: seq<Step>, n: nat, l: nat)
    requires IsRun(states, steps) && n <= |steps|
    requires Registered(states[n], l)
    ensures n > 0
    ensures var k := states[n].loads[l].key;
            || Starts(states[n - 1], steps[n - 1], l, k)
            || (Registered(states[n - 1], l) && states[n - 1].loads[l].key == k && !Displaces(steps[n - 1], k))
  {
    InvAlways(states, steps, n - 1);
    assert Follows(states, steps, n - 1);
    RegisteredBackwards(states[n - 1], steps[n - 1], l);
  }

  /** No put and no invalidation has touched the key since a registered load was started. */
  lemma {:induction false} RegisteredSince(states: seq<State>, steps: seq<Step>, n: nat, l: nat, k: Key)
    returns (i: nat)
    requires IsRun(states, steps) && n <= |steps|
    requires Registered(states[n], l) && states[n].loads[l].key == k
    ensures i < n && Starts(states[i], steps[i], l, k)
    ensures forall m :: i < m < n ==> !Displaces(steps[m], k)
  {
    RegisteredOneBack(states, steps, n, l);
    if Starts(states[n - 1], steps[n - 1], l, k) {
      i := n - 1;
    } else {
      i := RegisteredSince(states, steps, n - 1, l, k);
    }
  }

  /** A load that is registered for k has the same tag as l, which is not registered. */
  predicate Clashes(s: State, l: nat, k: Key) {
    && k in s.cache.loaders
    && var m := s.cache.loaders[k].load; m != l && m % TAGS == l % TAGS
  }

  /**
   In every run: a load that has been displaced stores its value if and only if the load that is
   registered for its key now was started a multiple of 2^64 loads away from it.
   */
  lemma DisplacedStoresIff(states: seq<State>, steps: seq<Step>, n: nat)
    requires IsRun(states, steps) && n < |steps| && steps[n].Submit? && !Registered(states[n], steps[n].load)
    ensures steps[n].load < |states[n].loads|
    ensures var s, l := states[n], steps[n].load;
            var k := s.loads[l].key;
            && (Stores(s, steps[n], k) <==> Clashes(s, l, k))
            && (k in states[n + 1].cache.cached && k !in s.cache.cached <==> Clashes(s, l, k))
  {
    assert Follows(states, steps, n);
    InvAlways(states, steps, n);
    TagsAlwaysCount(states, steps, n);
  }

  /**
   Where a cached value comes from, in every run: from a put; from a load that was started after the
   last put and the last invalidation of its key before it stored the value; or from a displaced load
   whose tag has been given out again to the load registered at that moment. Nothing has put, stored
   or invalidated the key since.
   */
  lemma CachedValueOrigin(states: seq<State>, steps: seq<Step>, n: nat, k: Key) returns (i: nat, j: nat)
    requires IsRun(states, steps) && n <= |steps|
    requires k in states[n].cache.cached
    ensures j < n && forall m :: j < m < n ==> !Touches(states[m], steps[m], k)
    ensures var v := states[n].cache.cached[k];
            || steps[j] == Put(k, v)
            || (&& steps[j].Submit? && steps[j].value == v
                && i < j && Starts(states[i], steps[i], steps[j].load, k)
                && forall m :: i < m < j ==> !Displaces(steps[m], k))
            || (steps[j].Submit? && steps[j].value == v && Clashes(states[j], steps[j].load, k))
  {
    i := 0;
    j := LatestWrite(states, steps, n, k);
    if steps[j].Submit? {
      if Registered(states[j], steps[j].load) {
        i := RegisteredSince(states, steps, j, steps[j].load, k);
      } else {
        DisplacedStoresIff(states, steps, j);
      }
    }
  }

  /** With tags that do not clash, so with at most 2^64 loads, a displaced load never populates the cache. */
  lemma DisplacedNeverStores(states: seq<State>, steps: seq<Step>, n: nat)
    requires IsRun(states, steps) && TagsNeverClash(states, steps)
    requires n < |steps| && steps[n].Submit? && !Registered(states[n], steps[n].load)
    ensures states[n + 1].cache == states[n].cache
  {
    assert Follows(states, steps, n);
    SoundAlways(states, steps, n);
    InChargeIsRegistered(states[n], steps[n].load);
  }

  // ---------- What getters return ----------

  predicate HasResult(s: State, l: nat, v: Value) {
    l < |s.loads| && (s.loads[l].phase == Submitted(v) || s.loads[l].phase == Done(v))
  }

  predicate WasSent(s: State, l: nat, v: Value) {
    l < |s.loads| && s.loads[l].side == Sent(v)
  }

  /** The step gives the registered load l its value: its own, or that of a put. */
  predicate Resolves(s: State, step: Step, l: nat, v: Value) {
    Registered(s, l) && (step == Submit(l, v) || step == Put(s.loads[l].key, v))
  }

  lemma SentBackwards(s: State, step: Step, l: nat, v: Value)
    requires Inv(s) && Enabled(s, step) && WasSent(Next(s, step), l, v)
    ensures WasSent(s, l, v) || Resolves(s, step, l, v)
  {}

  lemma ResultBackwards(s: State, step: Step, l: nat, v: Value)
    requires Sound(s) && Enabled(s, step) && HasResult(Next(s, step), l, v)
    ensures HasResult(s, l, v) || Resolves(s, step, l, v) || WasSent(s, l, v)
  {
    if step.Submit? {
      InChargeIsRegistered(s, step.load);
    }
  }

  lemma SentOneBack(states: seq<State>, steps: seq<Step>, n: nat, l: nat, v: Value)
    requires IsRun(states, steps) && n <= |steps| && WasSent(states[n], l, v)
    ensures n > 0 && (WasSent(states[n - 1], l, v) || Resolves(states[n - 1], steps[n - 1], l, v))
  {
    if n > 0 {
      InvAlways(states, steps, n - 1);
      assert Follows(states, steps, n - 1);
      SentBackwards(states[n - 1], steps[n - 1], l, v);
    }
  }

  lemma {:induction false} SentOrigin(states: seq<State>, steps: seq<Step>, n: nat, l: nat, v: Value) returns (j: nat)
    requires IsRun(states, steps) && n <= |steps| && WasSent(states[n], l, v)
    ensures j < n && Resolves(states[j], steps[j], l, v)
  {
    SentOneBack(states, steps, n, l, v);
    if Resolves(states[n - 1], steps[n - 1], l, v) {
      j := n - 1;
    } else {
      j := SentOrigin(states, steps, n - 1, l, v);
    }
  }

  lemma ResultOneBack(states: seq<State>, steps: seq<Step>, n: nat, l: nat, v: Value)
    requires IsRun(states, steps) && TagsNeverClash(states, steps) && n <= |steps| && HasResult(states[n], l, v)
    ensures n > 0
    ensures var s, step := states[n - 1], steps[n - 1];
            HasResult(s, l, v) || Resolves(s, step, l, v) || WasSent(s, l, v)
  {
    if n > 0 {
      SoundAlways(states, steps, n - 1);
      assert Follows(states, steps, n - 1);
      ResultBackwards(states[n - 1], steps[n - 1], l, v);
    }
  }

  /** A load's result is what it stored while registered, or the value of the put that displaced it. */
  lemma {:induction false} ResultOrigin(states: seq<State>, steps: seq<Step>, n: nat, l: nat, v: Value) returns (j: nat)
    requires IsRun(states, steps) && TagsNeverClash(states, steps) && n <= |steps|
    requires HasResult(states[n], l, v)
    ensures j < n && Resolves(states[j], steps[j], l, v)
  {
    ResultOneBack(states, steps, n, l, v);
    if Resolves(states[n - 1], steps[n - 1], l, v) {
      j := n - 1;
    } else if HasResult(states[n - 1], l, v) {
      j := ResultOrigin(states, steps, n - 1, l, v);
    } else {
      j := SentOrigin(states, steps, n - 1, l, v);
    }
  }

  /** All getters that share a load return the same value, and it is the load's result. */
  lemma SharedLoadSharedValue(states: seq<State>, steps: seq<Step>, n: nat, g: nat, h: nat, l: nat) returns (j: nat)
    requires IsRun(states, steps) && TagsNeverClash(states, steps) && n <= |steps|
    requires g in states[n].getters && states[n].getters[g].Returned? && states[n].getters[g].from == Some(l)
    requires h in states[n].getters && states[n].getters[h].Returned? && states[n].getters[h].from == Some(l)
    ensures states[n].getters[g].value == states[n].getters[h].value
    ensures j < n && Resolves(states[j], steps[j], l, states[n].getters[g].value)
  {
    SoundAlways(states, steps, n);
    j := ResultOrigin(states, steps, n, l, states[n].getters[g].value);
  }

  // ---------- Why loads fail ----------

  /** The load lost its place in the map and has no result of its own. */
  predicate Interrupted(s: State, l: nat) {
    && l < |s.loads| && !s.loads[l].side.Open?
    && (s.loads[l].phase.Loading? || s.loads[l].phase.Blocked? || s.loads[l].phase.Dead?)
  }

  lemma InterruptedBackwards(s: State, step: Step, l: nat)
    requires Sound(s) && Enabled(s, step) && Interrupted(Next(s, step), l)
    ensures Interrupted(s, l) || (Registered(s, l) && Displaces(step, s.loads[l].key))
  {
    if step.Submit? {
      InChargeIsRegistered(s, step.load);
    } else if step.SideDeliver? && s.loads[step.load].phase.Loading? {
      InChargeIsRegistered(s, step.load);
    } else if step.Cancel? && s.loads[s.getters[step.getter].load].phase.Loading? {
      InChargeIsRegistered(s, s.getters[step.getter].load);
    }
  }

  /** Step j took the load out of the map. */
  ghost predicate DisplacedAt(states: seq<State>, steps: seq<Step>, j: nat, l: nat)
    requires |states| == |steps| + 1
  {
    j < |steps| && Registered(states[j], l) && Displaces(steps[j], states[j].loads[l].key)
  }

  lemma InterruptedOneBack(states: seq<State>, steps: seq<Step>, n: nat, l: nat)
    requires IsRun(states, steps) && TagsNeverClash(states, steps) && n <= |steps| && Interrupted(states[n], l)
    ensures n > 0 && (Interrupted(states[n - 1], l) || DisplacedAt(states, steps, n - 1, l))
  {
    if n > 0 {
      SoundAlways(states, steps, n - 1);
      assert Follows(states, steps, n - 1);
      InterruptedBackwards(states[n - 1], steps[n - 1], l);
    }
  }

  lemma {:induction false} InterruptedOrigin(states: seq<State>, steps: seq<Step>, n: nat, l: nat) returns (j: nat)
    requires IsRun(states, steps) && TagsNeverClash(states, steps) && n <= |steps|
    requires Interrupted(states[n], l)
    ensures j < n && DisplacedAt(states, steps, j, l)
  {
    InterruptedOneBack(states, steps, n, l);
    if Interrupted(states[n - 1], l) {
      j := InterruptedOrigin(states, steps, n - 1, l);
    } else {
      j := n - 1;
    }
  }

  /** A getter fails only if a put or an invalidation took its load out of the map while it waited. */
  lemma GetterFailsOnlyIfDisplaced(states: seq<State>, steps: seq<Step>, n: nat, g: nat) returns (j: nat)
    requires IsRun(states, steps) && TagsNeverClash(states, steps) && n <= |steps|
    requires g in states[n].getters && states[n].getters[g].Panicked?
    ensures j < n && DisplacedAt(states, steps, j, states[n].getters[g].load)
  {
    SoundAlways(states, steps, n);
    j := InterruptedOrigin(states, steps, n, states[n].getters[g].load);
  }

  lemma CancelKeepsRegistered(s: State, g: nat, l: nat)
    requires Sound(s) && Enabled(s, Cancel(g)) && Registered(s, l)
    ensures Registered(Next(s, Cancel(g)), l)
  {
    var m := s.getters[g].load;
    if s.loads[m].phase.Loading? {
      InChargeIsRegistered(s, m);
    }
  }

  lemma RegisteredCanStore(s: State, l: nat, v: Value)
    requires Sound(s) && Registered(s, l)
    ensures s.loads[l].phase.Loading? && Enabled(s, Submit(l, v))
    ensures var s' := Next(s, Submit(l, v));
            && s'.loads[l].phase == Submitted(v)
            && s'.loads[l].key in s'.cache.cached && s'.cache.cached[s'.loads[l].key] == v
  {
    InChargeIsRegistered(s, l);
  }

  /**
   Cancelling getters never stops a load that is still registered for its key: it stays registered,
   keeps loading, and can still finish and store its value.
   */
  lemma CancellationIsSafe(states: seq<State>, steps: seq<Step>, n: nat, l: nat, v: Value)
    requires IsRun(states, steps) && TagsNeverClash(states, steps) && n < |steps|
    requires steps[n].Cancel? && Registered(states[n], l)
    ensures Registered(states[n + 1], l)
    ensures states[n + 1].loads[l].phase.Loading?
    ensures Enabled(states[n + 1], Submit(l, v))
    ensures var s := Next(states[n + 1], Submit(l, v));
            s.loads[l].phase == Submitted(v) && s.loads[l].key in s.cache.cached && s.cache.cached[s.loads[l].key] == v
  {
    CancelledStaysRegistered(states, steps, n, l);
    SoundAlways(states, steps, n + 1);
    RegisteredCanStore(states[n + 1], l, v);
  }

  lemma CancelledStaysRegistered(states: seq<State>, steps: seq<Step>, n: nat, l: nat)
    requires IsRun(states, steps) && TagsNeverClash(states, steps) && n < |steps|
    requires steps[n].Cancel? && Registered(states[n], l)
    ensures Registered(states[n + 1], l)
  {
    assert Follows(states, steps, n);
    SoundAlways(states, steps, n);
    CancelKeepsRegistered(states[n], steps[n].getter, l);
  }

  // ---------- When cancelling kills a load ----------

  /** The getter started the load at step i. */
  ghost predicate StartedBy(states: seq<State>, steps: seq<Step>, i: nat, g: nat, l: nat, k: Key)
    requires |states| == |steps| + 1
  {
    i < |steps| && steps[i] == GetStart(g, k) && |states[i].loads| == l
  }

  lemma DriverBackwards(s: State, step: Step, l: nat, g: nat)
    requires Enabled(s, step) && l < |Next(s, step).loads| && Next(s, step).loads[l].driver == Owner(g)
    ensures || (step.GetStart? && step.getter == g && |s.loads| == l && step.key == Next(s, step).loads[l].key)
            || (l < |s.loads| && s.loads[l].driver == Owner(g) && s.loads[l].key == Next(s, step).loads[l].key)
  {}

  /** An owner is the getter that started the load. */
  lemma {:induction false} OwnerStarted(states: seq<State>, steps: seq<Step>, n: nat, l: nat, g: nat) returns (i: nat)
    requires IsRun(states, steps) && n <= |steps|
    requires l < |states[n].loads| && states[n].loads[l].driver == Owner(g)
    ensures i < n && StartedBy(states, steps, i, g, l, states[n].loads[l].key)
  {
    assert Follows(states, steps, n - 1);
    DriverBackwards(states[n - 1], steps[n - 1], l, g);
    if steps[n - 1].GetStart? && steps[n - 1].getter == g && |states[n - 1].loads| == l {
      i := n - 1;
    } else {
      i := OwnerStarted(states, steps, n - 1, l, g);
    }
  }

  /** The getter owns the load, unless it was cancelled. */
  ghost predicate OwnsOrGone(s: State, l: nat, g: nat, k: Key) {
    && l < |s.loads| && s.loads[l].key == k && g in s.getters
    && (s.loads[l].driver == Owner(g) || s.getters[g].Cancelled?)
  }

  lemma StartOwns(s: State, g: nat, k: Key)
    requires Enabled(s, GetStart(g, k))
    ensures OwnsOrGone(Next(s, GetStart(g, k)), |s.loads|, g, k)
  {}

  lemma OwnsOrGoneNext(s: State, step: Step, l: nat, g: nat, k: Key)
    requires Enabled(s, step) && OwnsOrGone(s, l, g, k)
    ensures OwnsOrGone(Next(s, step), l, g, k)
  {}

  lemma {:induction false} StarterOwns(
    states: seq<State>, steps: seq<Step>, i: nat, n: nat, g: nat, l: nat, k: Key)
    requires IsRun(states, steps) && i < n <= |steps| && StartedBy(states, steps, i, g, l, k)
    ensures OwnsOrGone(states[n], l, g, k)
  {
    assert Follows(states, steps, n - 1);
    if i == n - 1 {
      StartOwns(states[i], g, k);
    } else {
      StarterOwns(states, steps, i, n - 1, g, l, k);
      OwnsOrGoneNext(states[n - 1], steps[n - 1], l, g, k);
    }
  }

  /** A load is started once. */
  lemma StartedOnce(states: seq<State>, steps: seq<Step>, i: nat, j: nat, l: nat)
    requires IsRun(states, steps) && i < |steps| && j < |steps|
    requires steps[i].GetStart? && |states[i].loads| == l && steps[j].GetStart? && |states[j].loads| == l
    ensures i == j
  {
    assert Follows(states, steps, i) && Follows(states, steps, j);
    if i < j {
      LoadsGrow(states, steps, i + 1, j);
    } else if j < i {
      LoadsGrow(states, steps, j + 1, i);
    }
  }

  /** A put or an invalidation of the key has come after the load was started. */
  ghost predicate DisplacedSince(states: seq<State>, steps: seq<Step>, i: nat, n: nat, k: Key)
    requires n <= |steps|
  {
    exists j :: i < j < n && Displaces(steps[j], k)
  }

  /** A load that is loading is registered if and only if its key was not displaced since its start. */
  lemma RegisteredIff(states: seq<State>, steps: seq<Step>, i: nat, n: nat, l: nat, k: Key)
    requires IsRun(states, steps) && TagsNeverClash(states, steps) && i < n <= |steps|
    requires Starts(states[i], steps[i], l, k)
    requires l < |states[n].loads| && (states[n].loads[l].phase.Loading? || states[n].loads[l].phase.Blocked?)
    ensures Registered(states[n], l) <==> !DisplacedSince(states, steps, i, n, k)
  {
    SoundAlways(states, steps, n);
    KeyOfLoad(states, steps, i, n, l, k);
    if Registered(states[n], l) {
      var i' := RegisteredSince(states, steps, n, l, k);
      StartedOnce(states, steps, i, i', l);
    } else {
      var j := InterruptedOrigin(states, steps, n, l);
      LoadsGrow(states, steps, 0, j);
      if j <= i {
        LoadsGrow(states, steps, j, i);
      }
      KeyOfLoad(states, steps, i, j, l, k);
    }
  }

  lemma {:induction false} KeyOfLoad(states: seq<State>, steps: seq<Step>, i: nat, n: nat, l: nat, k: Key)
    requires IsRun(states, steps) && i < n <= |steps| && Starts(states[i], steps[i], l, k)
    ensures l < |states[n].loads| && states[n].loads[l].key == k
  {
    assert Follows(states, steps, n - 1);
    if i < n - 1 {
      KeyOfLoad(states, steps, i, n - 1, l, k);
      LoadsKeepTags(states[n - 1], steps[n - 1], l);
    }
  }

  /**
   In every run, cancelling a getter kills a load that is not over if and only if the getter started
   it and a put or an invalidation of its key came in between.
   */
  lemma CancelKillsIff(states: seq<State>, steps: seq<Step>, n: nat, g: nat, l: nat)
    requires IsRun(states, steps) && TagsNeverClash(states, steps)
    requires n < |steps| && steps[n] == Cancel(g) && l < |states[n].loads| && Active(states[n].loads[l].phase)
    ensures l < |states[n + 1].loads|
    ensures states[n + 1].loads[l].phase.Dead? <==>
              exists i: nat :: && i < n && StartedBy(states, steps, i, g, l, states[n].loads[l].key)
                          && DisplacedSince(states, steps, i, n, states[n].loads[l].key)
  {
    var s, k := states[n], states[n].loads[l].key;
    assert Follows(states, steps, n);
    SoundAlways(states, steps, n);
    CancelKills(s, g, l);
    if s.loads[l].driver == Owner(g) {
      var i := OwnerStarted(states, steps, n, l, g);
      RegisteredIff(states, steps, i, n, l, k);
      forall i': nat | i' < n && StartedBy(states, steps, i', g, l, k) ensures i' == i {
        StartedOnce(states, steps, i, i', l);
      }
    }
    if i: nat :| i < n && StartedBy(states, steps, i, g, l, k) {
      StarterOwns(states, steps, i, n, g, l, k);
    }
  }

  lemma CancelKills(s: State, g: nat, l: nat)
    requires Sound(s) && Enabled(s, Cancel(g)) && l < |s.loads| && Active(s.loads[l].phase)
    ensures Next(s, Cancel(g)).loads[l].phase.Dead? <==>
              s.getters[g] == Waiting(l) && s.loads[l].driver == Owner(g) && !Registered(s, l)
  {
    var m := s.getters[g].load;
    if s.loads[m].phase.Loading? {
      InChargeIsRegistered(s, m);
    }
  }

  // ---------- When getters fail ----------

  /** The load was displaced, its side channel is as the displacement left it, and it has no value of its own. */
  predicate Displaced(s: State, l: nat, side: SideChannel) {
    && l < |s.loads| && !Registered(s, l) && s.loads[l].side == side && !side.Open?
    && !s.loads[l].phase.Submitted?
    && (s.loads[l].phase.Done? ==> side == Sent(s.loads[l].phase.value))
  }

  /** What a put or an invalidation leaves in the side channel. */
  function SideOf(step: Step): SideChannel {
    if step.Put? then Sent(step.value) else SenderGone
  }

  lemma DisplacedFirst(s: State, step: Step, l: nat)
    requires Inv(s) && Enabled(s, step) && Registered(s, l) && Displaces(step, s.loads[l].key)
    ensures Displaced(Next(s, step), l, SideOf(step)) && Active(Next(s, step).loads[l].phase)
  {}

  /** The step drops the owner of a load that is not over. */
  predicate DropsOwner(s: State, step: Step, l: nat) {
    step.Cancel? && l < |s.loads| && s.loads[l].driver == Owner(step.getter) && Active(s.loads[l].phase)
  }

  /** A displaced load stays displaced, and dies when its owner is dropped or its side channel has no sender. */
  lemma DisplacedNext(s: State, step: Step, l: nat, side: SideChannel)
    requires Sound(s) && Enabled(s, step) && Displaced(s, l, side)
    ensures Displaced(Next(s, step), l, side)
    ensures Next(s, step).loads[l].phase.Dead? <==>
              || s.loads[l].phase.Dead?
              || DropsOwner(s, step, l)
              || (step == SideDeliver(l) && side.SenderGone?)
  {
    if step.Submit? {
      InChargeIsRegistered(s, step.load);
    } else if step.SideDeliver? && s.loads[step.load].phase.Loading? {
      InChargeIsRegistered(s, step.load);
    } else if step.Cancel? && s.loads[s.getters[step.getter].load].phase.Loading? {
      InChargeIsRegistered(s, s.getters[step.getter].load);
    }
  }

  /** The owner was cancelled after step j while the load was not over. */
  ghost predicate OwnerCancelled(states: seq<State>, steps: seq<Step>, j: nat, n: nat, l: nat)
    requires |states| == |steps| + 1 && n <= |steps|
  {
    exists m :: j < m < n && DropsOwner(states[m], steps[m], l)
  }

  lemma OwnerCancelledNext(states: seq<State>, steps: seq<Step>, j: nat, n: nat, l: nat)
    requires |states| == |steps| + 1 && j < n < |steps|
    ensures OwnerCancelled(states, steps, j, n + 1, l) <==>
              OwnerCancelled(states, steps, j, n, l) || DropsOwner(states[n], steps[n], l)
  {}

  /** Since step j displaced it: the load is displaced, and dead after a put exactly if the owner was cancelled. */
  ghost predicate SinceDisplaced(states: seq<State>, steps: seq<Step>, j: nat, n: nat, l: nat)
    requires |states| == |steps| + 1 && j < n <= |steps|
  {
    && Displaced(states[n], l, SideOf(steps[j]))
    && (steps[j].Put? ==> (states[n].loads[l].phase.Dead? <==> OwnerCancelled(states, steps, j, n, l)))
  }

  lemma SinceDisplacedFirst(states: seq<State>, steps: seq<Step>, j: nat, l: nat)
    requires IsRun(states, steps) && DisplacedAt(states, steps, j, l)
    ensures SinceDisplaced(states, steps, j, j + 1, l)
  {
    assert Follows(states, steps, j);
    InvAlways(states, steps, j);
    DisplacedFirst(states[j], steps[j], l);
  }

  lemma SinceDisplacedNext(states: seq<State>, steps: seq<Step>, j: nat, n: nat, l: nat)
    requires IsRun(states, steps) && TagsNeverClash(states, steps) && j < n < |steps|
    requires SinceDisplaced(states, steps, j, n, l)
    ensures SinceDisplaced(states, steps, j, n + 1, l)
  {
    assert Follows(states, steps, n);
    SoundAlways(states, steps, n);
    DisplacedNext(states[n], steps[n], l, SideOf(steps[j]));
    OwnerCancelledNext(states, steps, j, n, l);
  }

  lemma {:induction false} DisplacedSinceThen(states: seq<State>, steps: seq<Step>, j: nat, n: nat, l: nat)
    requires IsRun(states, steps) && TagsNeverClash(states, steps) && j < n <= |steps|
    requires DisplacedAt(states, steps, j, l)
    ensures SinceDisplaced(states, steps, j, n, l)
  {
    if n == j + 1 {
      SinceDisplacedFirst(states, steps, j, l);
    } else {
      DisplacedSinceThen(states, steps, j, n - 1, l);
      SinceDisplacedNext(states, steps, j, n - 1, l);
    }
  }

  /**
   What a getter gets from a load that was displaced while it waited: nothing, if an invalidation displaced
   it, or if its owner was cancelled after that while the load was not over; otherwise the value of the put.
   */
  lemma DisplacedGetterResult(states: seq<State>, steps: seq<Step>, j: nat, n: nat, g: nat, l: nat)
    requires IsRun(states, steps) && TagsNeverClash(states, steps) && j < n < |steps|
    requires steps[n] == Return(g) && g in states[n].getters && states[n].getters[g] == Waiting(l)
    requires DisplacedAt(states, steps, j, l)
    ensures g in states[n + 1].getters
    ensures states[n + 1].getters[g] ==
              if steps[j].Put? && !OwnerCancelled(states, steps, j, n, l)
              then Returned(Some(l), steps[j].value) else Panicked(l)
  {
    DisplacedSinceThen(states, steps, j, n, l);
    assert Follows(states, steps, n);
  }

  /**
   A getter that returns fails if and only if, before that, its load was taken out of the map by an
   invalidation, or by a put after which the owner of the load was cancelled while the load was not over.
   */
  lemma GetterFailsIff(states: seq<State>, steps: seq<Step>, n: nat, g: nat, l: nat)
    requires IsRun(states, steps) && TagsNeverClash(states, steps) && n < |steps|
    requires steps[n] == Return(g) && g in states[n].getters && states[n].getters[g] == Waiting(l)
    ensures g in states[n + 1].getters
    ensures states[n + 1].getters[g].Panicked? <==>
              exists j: nat :: && j < n && DisplacedAt(states, steps, j, l)
                               && (steps[j].Invalidate? || OwnerCancelled(states, steps, j, n, l))
  {
    assert Follows(states, steps, n);
    ReturnKeepsLoad(states[n], g, l);
    if states[n + 1].getters[g].Panicked? {
      var j := GetterFailsOnlyIfDisplaced(states, steps, n + 1, g);
      DisplacedGetterResult(states, steps, j, n, g, l);
    }
    if j: nat :| && j < n && DisplacedAt(states, steps, j, l)
                 && (steps[j].Invalidate? || OwnerCancelled(states, steps, j, n, l))
    {
      DisplacedGetterResult(states, steps, j, n, g, l);
    }
  }

  lemma ReturnKeepsLoad(s: State, g: nat, l: nat)
    requires Enabled(s, Return(g)) && s.getters[g] == Waiting(l)
    ensures var r := Next(s, Return(g)).getters[g]; r == Panicked(l) || (r.Returned? && r.from == Some(l))
  {}

  /** Such a run: the owner goes away between a put and its delivery, and the other getter fails. */
  lemma DisplacedOwnerTakesLoadDown() returns (states: seq<State>, steps: seq<Step>)
    ensures IsRun(states, steps)
    ensures steps == [GetStart(0, "k"), GetJoin(1, "k"), Put("k", "v"), Cancel(0), Return(1)]
    ensures 1 in states[5].getters && states[5].getters[1].Panicked?
  {
    states, steps := [INITIAL], [];
    states, steps := Extend(states, steps, GetStart(0, "k"));
    states, steps := Extend(states, steps, GetJoin(1, "k"));
    states, steps := Extend(states, steps, Put("k", "v"));
    assert states[3].cache.loaders == map[];
    states, steps := Extend(states, steps, Cancel(0));
    states, steps := Extend(states, steps, Return(1));
  }

  // ---------- Wrapped tags ----------

  /** Runs grow one step at a time. */
  lemma Extend(states: seq<State>, steps: seq<Step>, step: Step) returns (states': seq<State>, steps': seq<Step>)
    requires IsRun(states, steps) && Enabled(states[|steps|], step)
    ensures steps' == steps + [step]
    ensures IsRun(states', steps') && states'[|steps'|] == Next(states[|steps|], step)
  {
    states', steps' := states + [Next(states[|steps|], step)], steps + [step];
    forall i: nat | i < |steps'| ensures Follows(states', steps', i) {
      assert i < |steps| ==> Follows(states, steps, i);
    }
  }

  /** Load 0 was invalidated while loading, n loads have been started, none is registered. */
  ghost predicate AfterManyLoads(s: State, n: nat) {
    && n >= 1 && |s.loads| == n
    && s.cache == CacheContents(map[], map[], n % TAGS)
    && s.loads[0] == Load("k", 0, Loading, SenderGone, Owner(0))
    && forall g :: g in s.getters ==> g < n
  }

  lemma {:induction false} ManyLoads(n: nat) returns (states: seq<State>, steps: seq<Step>)
    requires n >= 1
    ensures IsRun(states, steps) && AfterManyLoads(states[|steps|], n)
    ensures |steps| >= 2 && steps[0] == GetStart(0, "k") && steps[1] == Invalidate("k")
  {
    if n == 1 {
      states, steps := [INITIAL], [];
      states, steps := Extend(states, steps, GetStart(0, "k"));
      states, steps := Extend(states, steps, Invalidate("k"));
      assert states[2].cache.loaders == map[] && states[2].cache.cached == map[];
    } else {
      states, steps := ManyLoads(n - 1);
      ModuloStep(n - 1);
      states, steps := Extend(states, steps, GetStart(n - 1, "other"));
      var s := states[|steps|];
      assert s.cache.loaders == map["other" := ValueLoader(n - 1, (n - 1) % TAGS)];
      states, steps := Extend(states, steps, Invalidate("other"));
      assert states[|steps|].cache.loaders == map[] && states[|steps|].cache.cached == map[];
    }
  }

  /**
   The condition on tags is needed: after 2^64 further loads, the first tag is given out again, and a
   load that was invalidated long ago takes itself for the one in charge and populates the cache.
   */
  lemma WrappedTagPopulates() returns (states: seq<State>, steps: seq<Step>)
    ensures IsRun(states, steps) && |steps| >= 3 && |states[|steps|].loads| == TAGS + 1
    ensures steps[0] == GetStart(0, "k") && steps[1] == Invalidate("k")
    ensures steps[|steps| - 1] == Submit(0, "stale")
    ensures "k" in states[|steps|].cache.cached && states[|steps|].cache.cached["k"] == "stale"
  {
    states, steps := ManyLoads(TAGS);
    states, steps := Extend(states, steps, GetStart(TAGS, "k"));
    assert InCharge(states[|steps|].cache, "k", 0);
    states, steps := Extend(states, steps, Submit(0, "stale"));
  }
}
