/**
 The loading cache as a protocol: any number of getters, puts, invalidations, cancellations and
 evictions, interleaved at the granularity of the driver's critical sections.

 A run is a sequence of states linked by steps. The claims are about all runs.
 */
module CacheProtocol {
  import opened Wrappers
  import opened LoadingCache

  /** The one-shot channel by which `put` reaches a running load. */
  datatype SideChannel = Open | Sent(value: Value) | SenderGone

  /** How far the future of a load has come. */
  datatype Phase =
    | Loading                  // the user's loader is running
    | Submitted(value: Value)  // it was in charge and stored its value, not yet broadcast
    | Blocked                  // it was not in charge any more: waits for the side channel
    | Done(value: Value)       // the receivers have a value
    | Dead                     // the receivers get an error

  /** Who polls the future: the getter that started it, a task of its own, or nobody. */
  datatype Driver = Owner(getter: nat) | Spawned | Nobody

  datatype Load = Load(key: Key, tag: nat, phase: Phase, side: SideChannel, driver: Driver)

  datatype Getter =
    | Waiting(load: nat)
    | Returned(from: Option<nat>, value: Value)
    | Panicked(load: nat)
    | Cancelled

  /** Loads are numbered in the order in which they were started. */
  datatype State = State(cache: CacheContents, loads: seq<Load>, getters: map<nat, Getter>)

  datatype Step =
    | GetHit(getter: nat, key: Key)
    | GetJoin(getter: nat, key: Key)
    | GetStart(getter: nat, key: Key)
    | Submit(load: nat, value: Value)
    | Broadcast(load: nat)
    | SideDeliver(load: nat)
    | Return(getter: nat)
    | Put(key: Key, value: Value)
    | Invalidate(key: Key)
    | Cancel(getter: nat)
    | Evict(key: Key)

  const INITIAL: State := State(EMPTY_CACHE, [], map[])

  // ---------- Steps ----------

  predicate Active(phase: Phase) {
    phase.Loading? || phase.Submitted? || phase.Blocked?
  }

  predicate Registered(s: State, l: nat) {
    l < |s.loads| && s.loads[l].key in s.cache.loaders && s.cache.loaders[s.loads[l].key].load == l
  }

  predicate CanRun(s: State, l: nat) {
    l < |s.loads| && !s.loads[l].driver.Nobody?
  }

  predicate Enabled(s: State, step: Step) {
    match step
    case GetHit(g, k) => g !in s.getters && k in s.cache.cached
    case GetJoin(g, k) => g !in s.getters && k !in s.cache.cached && k in s.cache.loaders
    case GetStart(g, k) =>
      g !in s.getters && k !in s.cache.cached && k !in s.cache.loaders && s.cache.nextTag < TAGS
    case Submit(l, _) => CanRun(s, l) && s.loads[l].phase.Loading?
    case Broadcast(l) => CanRun(s, l) && s.loads[l].phase.Submitted?
    case SideDeliver(l) =>
      && CanRun(s, l) && (s.loads[l].phase.Loading? || s.loads[l].phase.Blocked?) && !s.loads[l].side.Open?
    case Return(g) =>
      && g in s.getters && s.getters[g].Waiting? && s.getters[g].load < |s.loads|
      && (s.loads[s.getters[g].load].phase.Done? || s.loads[s.getters[g].load].phase.Dead?)
    case Put(_, _) => true
    case Invalidate(_) => true
    case Cancel(g) =>
      // submitting and broadcasting happen in one poll, a getter cannot be dropped in between
      && g in s.getters && s.getters[g].Waiting? && s.getters[g].load < |s.loads|
      && !(s.loads[s.getters[g].load].driver == Owner(g) && s.loads[s.getters[g].load].phase.Submitted?)
    case Evict(k) => k in s.cache.cached
  }

  function SetLoad(s: State, l: nat, load: Load): State
    requires l < |s.loads|
  {
    s.(loads := s.loads[l := load])
  }

  /** The loader of a key leaves the map; its side channel gets a value or loses its sender. */
  function WithoutLoader(loads: seq<Load>, c: CacheContents, k: Key, side: SideChannel): seq<Load> {
    if k in c.loaders && c.loaders[k].load < |loads|
    then loads[c.loaders[k].load := loads[c.loaders[k].load].(side := side)]
    else loads
  }

  /** A load ends its submitter, with a value or without. */
  function FinalizeLoad(s: State, l: nat, v: Option<Value>): State
    requires l < |s.loads|
  {
    var load := s.loads[l];
    if InCharge(s.cache, load.key, load.tag)
    then s.(cache := AfterFinalize(s.cache, load.key, load.tag, v),
            loads := WithoutLoader(s.loads, s.cache, load.key, SenderGone))
    else s
  }

  /** The submitter of a load that is still loading is dropped with it. */
  function DropSubmitter(s: State, l: nat): State
    requires l < |s.loads|
  {
    if s.loads[l].phase.Loading? then FinalizeLoad(s, l, None) else s
  }

  function Next(s: State, step: Step): State
    requires Enabled(s, step)
  {
    match step
    case GetHit(g, k) => s.(getters := s.getters[g := Returned(None, s.cache.cached[k])])
    case GetJoin(g, k) => s.(getters := s.getters[g := Waiting(s.cache.loaders[k].load)])
    case GetStart(g, k) =>
      var l := |s.loads|;
      State(WithLoader(s.cache, k, l),
            s.loads + [Load(k, s.cache.nextTag, Loading, Open, Owner(g))],
            s.getters[g := Waiting(l)])
    case Submit(l, v) =>
      var wasRunning := InCharge(s.cache, s.loads[l].key, s.loads[l].tag);
      var s' := FinalizeLoad(s, l, Some(v));
      SetLoad(s', l, s'.loads[l].(phase := if wasRunning then Submitted(v) else Blocked))
    case Broadcast(l) => SetLoad(s, l, s.loads[l].(phase := Done(s.loads[l].phase.value)))
    case SideDeliver(l) =>
      var s' := DropSubmitter(s, l);
      SetLoad(s', l, s'.loads[l].(phase := if s.loads[l].side.Sent? then Done(s.loads[l].side.value) else Dead))
    case Return(g) =>
      var l := s.getters[g].load;
      var result := if s.loads[l].phase.Done? then Returned(Some(l), s.loads[l].phase.value) else Panicked(l);
      s.(getters := s.getters[g := result])
    case Put(k, v) => State(AfterPut(s.cache, k, v), WithoutLoader(s.loads, s.cache, k, Sent(v)), s.getters)
    case Invalidate(k) =>
      State(AfterInvalidate(s.cache, k), WithoutLoader(s.loads, s.cache, k, SenderGone), s.getters)
    case Cancel(g) =>
      var l := s.getters[g].load;
      var s' := s.(getters := s.getters[g := Cancelled]);
      if s.loads[l].driver != Owner(g) || !Active(s.loads[l].phase) then s'
      else if Registered(s, l) then SetLoad(s', l, s.loads[l].(driver := Spawned))
      else
        var s'' := DropSubmitter(s', l);
        SetLoad(s'', l, s''.loads[l].(phase := Dead, driver := Nobody))
    case Evict(k) => s.(cache := s.cache.(cached := s.cache.cached - {k}))
  }

  /** Step i leads to the next state. */
  ghost predicate Follows(states: seq<State>, steps: seq<Step>, i: nat) {
    && i < |steps| && i + 1 < |states|
    && Enabled(states[i], steps[i]) && states[i + 1] == Next(states[i], steps[i])
  }

  ghost predicate IsRun(states: seq<State>, steps: seq<Step>) {
    && |states| == |steps| + 1
    && states[0] == INITIAL
    && forall i: nat :: i < |steps| ==> Follows(states, steps, i)
  }

  // ---------- What every state satisfies ----------

  /** A registered load is loading, can be reached by `put`, and is polled by somebody. */
  ghost predicate LoadersRun(s: State) {
    forall k :: k in s.cache.loaders ==>
      var l := s.cache.loaders[k].load;
      && l < |s.loads|
      && s.loads[l].key == k && s.loads[l].tag == s.cache.loaders[k].tag
      && s.loads[l].phase.Loading? && s.loads[l].side.Open? && !s.loads[l].driver.Nobody?
  }

  ghost predicate OpenMeansRegistered(s: State) {
    forall l :: 0 <= l < |s.loads| && s.loads[l].side.Open? ==> Registered(s, l)
  }

  /** A load that is not over has a driver, and an owner that waits for it. */
  ghost predicate DriversDrive(s: State) {
    forall l :: 0 <= l < |s.loads| && Active(s.loads[l].phase) ==>
      && !s.loads[l].driver.Nobody?
      && (s.loads[l].driver.Owner? ==>
            s.loads[l].driver.getter in s.getters && s.getters[s.loads[l].driver.getter] == Waiting(l))
  }

  /** Getters that share a load agree with it. */
  ghost predicate GettersAgree(s: State) {
    forall g :: g in s.getters ==>
      && (s.getters[g].Waiting? ==> s.getters[g].load < |s.loads|)
      && (s.getters[g].Returned? && s.getters[g].from.Some? ==>
            s.getters[g].from.value < |s.loads| && s.loads[s.getters[g].from.value].phase == Done(s.getters[g].value))
      && (s.getters[g].Panicked? ==> s.getters[g].load < |s.loads| && s.loads[s.getters[g].load].phase.Dead?)
  }

  ghost predicate Inv(s: State) {
    && LoadersRun(s)
    && OpenMeansRegistered(s)
    && DriversDrive(s)
    && GettersAgree(s)
    && s.cache.cached.Keys !! s.cache.loaders.Keys
    && s.cache.nextTag < TAGS
  }

  lemma InvGet(s: State, step: Step)
    requires Inv(s) && Enabled(s, step)
    requires step.GetHit? || step.GetJoin? || step.Return? || step.Evict? || step.Broadcast?
    ensures Inv(Next(s, step))
  {
    var s' := Next(s, step);
    assert s'.cache.loaders == s.cache.loaders;
  }

  lemma InvStart(s: State, step: Step)
    requires Inv(s) && Enabled(s, step) && step.GetStart?
    ensures Inv(Next(s, step))
  {
    var s' := Next(s, step);
    assert forall l :: 0 <= l < |s.loads| ==> s'.loads[l] == s.loads[l];
  }

  lemma InvPut(s: State, step: Step)
    requires Inv(s) && Enabled(s, step) && step.Put?
    ensures Inv(Next(s, step))
  {
    var s' := Next(s, step);
    forall l | 0 <= l < |s'.loads| && s'.loads[l].side.Open? ensures Registered(s', l) {
      assert Registered(s, l);
    }
  }

  lemma InvInvalidate(s: State, step: Step)
    requires Inv(s) && Enabled(s, step) && step.Invalidate?
    ensures Inv(Next(s, step))
  {
    var s' := Next(s, step);
    forall l | 0 <= l < |s'.loads| && s'.loads[l].side.Open? ensures Registered(s', l) {
      assert Registered(s, l);
    }
  }

  /**
   Whoever is registered with the tag leaves the map. That is the load itself, or, if tags have
   wrapped, another one.
   */
  lemma FinalizeKeepsLoaders(s: State, l: nat, v: Option<Value>)
    requires LoadersRun(s) && OpenMeansRegistered(s) && l < |s.loads|
    ensures var s' := FinalizeLoad(s, l, v);
            && LoadersRun(s') && OpenMeansRegistered(s') && |s'.loads| == |s.loads| && !Registered(s', l)
            && (forall m :: 0 <= m < |s.loads| ==> s'.loads[m].(side := s.loads[m].side) == s.loads[m])
  {
    var s' := FinalizeLoad(s, l, v);
    forall m | 0 <= m < |s'.loads| && s'.loads[m].side.Open? ensures Registered(s', m) {
      assert Registered(s, m);
    }
  }

  lemma InvSubmit(s: State, step: Step)
    requires Inv(s) && Enabled(s, step) && step.Submit?
    ensures Inv(Next(s, step))
  {
    var l, s' := step.load, Next(s, step);
    FinalizeKeepsLoaders(s, l, Some(step.value));
    forall m | 0 <= m < |s'.loads| && s'.loads[m].side.Open? ensures Registered(s', m) {
      assert Registered(FinalizeLoad(s, l, Some(step.value)), m);
    }
  }

  lemma DeliverKeepsLoaders(s: State, step: Step)
    requires Inv(s) && Enabled(s, step) && step.SideDeliver?
    ensures LoadersRun(Next(s, step)) && OpenMeansRegistered(Next(s, step))
  {
    var l, s' := step.load, Next(s, step);
    assert !Registered(s, l);
    FinalizeKeepsLoaders(s, l, None);
    forall m | 0 <= m < |s'.loads| && s'.loads[m].side.Open? ensures Registered(s', m) {
      assert Registered(DropSubmitter(s, l), m);
    }
  }

  lemma InvDeliver(s: State, step: Step)
    requires Inv(s) && Enabled(s, step) && step.SideDeliver?
    ensures Inv(Next(s, step))
  {
    DeliverKeepsLoaders(s, step);
    FinalizeKeepsLoaders(s, step.load, None);
  }

  /** A getter that does not drive its load, or whose load is over, just goes away. */
  lemma InvCancelBystander(s: State, step: Step)
    requires Inv(s) && Enabled(s, step) && step.Cancel?
    requires var l := s.getters[step.getter].load;
             s.loads[l].driver != Owner(step.getter) || !Active(s.loads[l].phase)
    ensures Inv(Next(s, step))
  {
    var s' := Next(s, step);
    assert s'.cache == s.cache && s'.loads == s.loads;
  }

  /** The owner of a registered load goes away: the load is rescued. */
  lemma InvCancelRescue(s: State, step: Step)
    requires Inv(s) && Enabled(s, step) && step.Cancel?
    requires var l := s.getters[step.getter].load; s.loads[l].driver == Owner(step.getter) && Registered(s, l)
    ensures Inv(Next(s, step))
  {
    var l, s' := s.getters[step.getter].load, Next(s, step);
    assert s'.cache == s.cache && s'.loads == s.loads[l := s.loads[l].(driver := Spawned)];
    forall m | 0 <= m < |s'.loads| && s'.loads[m].side.Open? ensures Registered(s', m) {
      assert Registered(s, m);
    }
  }

  predicate DropsDisplaced(s: State, step: Step) {
    && Enabled(s, step) && step.Cancel?
    && var l := s.getters[step.getter].load;
       s.loads[l].driver == Owner(step.getter) && Active(s.loads[l].phase) && !Registered(s, l)
  }

  lemma DropKeepsLoaders(s: State, step: Step)
    requires Inv(s) && DropsDisplaced(s, step)
    ensures LoadersRun(Next(s, step)) && OpenMeansRegistered(Next(s, step))
  {
    var l, s' := s.getters[step.getter].load, Next(s, step);
    var without := s.(getters := s.getters[step.getter := Cancelled]);
    forall m | 0 <= m < |s.loads| && s.loads[m].side.Open? ensures Registered(without, m) {
      assert Registered(s, m);
    }
    FinalizeKeepsLoaders(without, l, None);
    forall m | 0 <= m < |s'.loads| && s'.loads[m].side.Open? ensures Registered(s', m) {
      assert Registered(DropSubmitter(without, l), m);
    }
  }

  /** The owner of a displaced load goes away: the load dies. */
  lemma InvCancelDrop(s: State, step: Step)
    requires Inv(s) && DropsDisplaced(s, step)
    ensures Inv(Next(s, step))
  {
    DropKeepsLoaders(s, step);
  }

  lemma InvCancel(s: State, step: Step)
    requires Inv(s) && Enabled(s, step) && step.Cancel?
    ensures Inv(Next(s, step))
  {
    var l := s.getters[step.getter].load;
    if s.loads[l].driver != Owner(step.getter) || !Active(s.loads[l].phase) {
      InvCancelBystander(s, step);
    } else if Registered(s, l) {
      InvCancelRescue(s, step);
    } else {
      InvCancelDrop(s, step);
    }
  }

  lemma InvNext(s: State, step: Step)
    requires Inv(s) && Enabled(s, step)
    ensures Inv(Next(s, step))
  {
    match step {
      case GetStart(_, _) => InvStart(s, step);
      case Put(_, _) => InvPut(s, step);
      case Invalidate(_) => InvInvalidate(s, step);
      case Submit(_, _) => InvSubmit(s, step);
      case SideDeliver(_) => InvDeliver(s, step);
      case Cancel(_) => InvCancel(s, step);
      case _ => InvGet(s, step);
    }
  }

  /** The invariant holds in every state of every run, whatever becomes of the tags. */
  lemma {:induction false} InvAlways(states: seq<State>, steps: seq<Step>, n: nat)
    requires IsRun(states, steps) && n <= |steps|
    ensures Inv(states[n])
  {
    if n > 0 {
      InvAlways(states, steps, n - 1);
      assert Follows(states, steps, n - 1);
      InvNext(states[n - 1], steps[n - 1]);
    }
  }

  // ---------- Tags that do not clash ----------

  /** The next tag is not that of a load for this key that is still loading. */
  ghost predicate FreshTag(s: State, k: Key) {
    forall l :: 0 <= l < |s.loads| && s.loads[l].key == k && s.loads[l].phase.Loading? ==>
      s.loads[l].tag != s.cache.nextTag
  }

  /** Live tags do not wrap onto each other. */
  ghost predicate TagsNeverClash(states: seq<State>, steps: seq<Step>)
    requires |states| == |steps| + 1
  {
    forall i :: 0 <= i < |steps| && steps[i].GetStart? ==> FreshTag(states[i], steps[i].key)
  }

  ghost predicate TagsApart(s: State) {
    forall l, m ::
      && 0 <= l < m < |s.loads| && s.loads[l].key == s.loads[m].key
      && s.loads[l].phase.Loading? && s.loads[m].phase.Loading?
      ==> s.loads[l].tag != s.loads[m].tag
  }

  ghost predicate Sound(s: State) {
    Inv(s) && TagsApart(s)
  }

  /** Only the registered load is in charge of its key. */
  lemma InChargeIsRegistered(s: State, l: nat)
    requires Sound(s) && l < |s.loads| && s.loads[l].phase.Loading?
    ensures InCharge(s.cache, s.loads[l].key, s.loads[l].tag) <==> Registered(s, l)
  {
    if InCharge(s.cache, s.loads[l].key, s.loads[l].tag) {
      var m := s.cache.loaders[s.loads[l].key].load;
      assert s.loads[m].key == s.loads[l].key && s.loads[m].tag == s.loads[l].tag;
    }
  }

  /** Loads keep their key and tag, and none of the old ones starts loading again. */
  lemma LoadsKeepTags(s: State, step: Step, l: nat)
    requires Enabled(s, step) && l < |s.loads|
    ensures l < |Next(s, step).loads|
    ensures Next(s, step).loads[l].key == s.loads[l].key && Next(s, step).loads[l].tag == s.loads[l].tag
    ensures Next(s, step).loads[l].phase.Loading? ==> s.loads[l].phase.Loading?
  {}

  lemma TagsApartNext(s: State, step: Step)
    requires TagsApart(s) && Enabled(s, step)
    requires step.GetStart? ==> FreshTag(s, step.key)
    ensures TagsApart(Next(s, step))
  {
    forall l | 0 <= l < |s.loads|
      ensures var before, after := s.loads[l], Next(s, step).loads[l];
              after.key == before.key && after.tag == before.tag && (after.phase.Loading? ==> before.phase.Loading?)
    {
      LoadsKeepTags(s, step, l);
    }
  }

  lemma {:induction false} TagsAlwaysApart(states: seq<State>, steps: seq<Step>, n: nat)
    requires IsRun(states, steps) && TagsNeverClash(states, steps) && n <= |steps|
    ensures TagsApart(states[n])
  {
    if n > 0 {
      var s, step := states[n - 1], steps[n - 1];
      TagsAlwaysApart(states, steps, n - 1);
      assert Follows(states, steps, n - 1);
      assert step.GetStart? ==> FreshTag(s, step.key);
      TagsApartNext(s, step);
    }
  }

  lemma SoundAlways(states: seq<State>, steps: seq<Step>, n: nat)
    requires IsRun(states, steps) && TagsNeverClash(states, steps) && n <= |steps|
    ensures Sound(states[n])
  {
    InvAlways(states, steps, n);
    TagsAlwaysApart(states, steps, n);
  }
}
