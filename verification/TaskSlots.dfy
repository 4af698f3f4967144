/**
 Free task slots of the executors, kept in one record of the key-value store.

 Schedulers update the record by locking, reading, writing and unlocking. Freeing slots and
 registering an executor lock the key "all"; binding tasks locks the key "global", although it
 updates the same record.
 */
module TaskSlots {
  import opened Wrappers

  datatype ExecutorSlots = ExecutorSlots(executorId: string, slots: nat)

  type Record = seq<ExecutorSlots>

  // ---------- Freeing slots ----------

  /** The slots that a list of (executor, slots) pairs gives back to one executor. */
  function Total(pairs: seq<(string, nat)>, executorId: string): nat {
    if pairs == [] then 0
    else
      var last := pairs[|pairs| - 1];
      Total(pairs[..|pairs| - 1], executorId) + if last.0 == executorId then last.1 else 0
  }

  /** Every executor of the record gets back what the pairs say. */
  function Unbound(record: Record, pairs: seq<(string, nat)>): (r: Record)
    ensures |r| == |record|
  {
    if record == [] then []
    else
      var last := record[|record| - 1];
      Unbound(record[..|record| - 1], pairs) +
      [ExecutorSlots(last.executorId, last.slots + Total(pairs, last.executorId))]
  }

  method SumIncrements(pairs: seq<(string, nat)>) returns (increments: map<string, nat>)
    ensures forall e :: e in increments ==> increments[e] == Total(pairs, e)
    ensures forall e :: e !in increments ==> Total(pairs, e) == 0
  {
    increments := map[];
    for i := 0 to |pairs|
      invariant forall e :: e in increments ==> increments[e] == Total(pairs[..i], e)
      invariant forall e :: e !in increments ==> Total(pairs[..i], e) == 0
    {
      var (e, n) := pairs[i];
      assert pairs[..i + 1][..i] == pairs[..i];
      increments := increments[e := (if e in increments then increments[e] else 0) + n];
    }
    assert pairs[..|pairs|] == pairs;
  }

  /** The key-value implementation walks over the record. */
  method UnbindInRecord(record: Record, pairs: seq<(string, nat)>) returns (r: Record)
    ensures r == Unbound(record, pairs)
  {
    var increments := SumIncrements(pairs);
    r := [];
    for i := 0 to |record|
      invariant r == Unbound(record[..i], pairs)
    {
      var entry := record[i];
      assert record[..i + 1][..i] == record[..i];
      var more := if entry.executorId in increments then increments[entry.executorId] else 0;
      r := r + [ExecutorSlots(entry.executorId, entry.slots + more)];
    }
    assert record[..|record|] == record;
  }

  /** Every executor of the map gets back what the pairs say. */
  function UnboundMap(taskSlots: map<string, nat>, pairs: seq<(string, nat)>): map<string, nat> {
    map e | e in taskSlots :: taskSlots[e] + Total(pairs, e)
  }

  /** The in-memory implementation walks over the increments, in whatever order the map holds them. */
  method UnbindInMap(taskSlots: map<string, nat>, pairs: seq<(string, nat)>) returns (r: map<string, nat>)
    ensures r == UnboundMap(taskSlots, pairs)
  {
    var increments := SumIncrements(pairs);
    r := taskSlots;
    var todo := increments.Keys;
    while todo != {}
      invariant todo <= increments.Keys
      invariant r.Keys == taskSlots.Keys
      invariant forall e :: e in taskSlots ==>
                  r[e] == taskSlots[e] + if e in increments.Keys - todo then Total(pairs, e) else 0
      decreases |todo|
    {
      var e :| e in todo;
      if e in r {
        r := r[e := r[e] + increments[e]];
      }
      todo := todo - {e};
    }
  }

  // ---------- Freeing adds up ----------

  lemma {:induction false} TotalConcat(a: seq<(string, nat)>, b: seq<(string, nat)>, e: string)
    ensures Total(a + b, e) == Total(a, e) + Total(b, e)
  {
    if b == [] {
      assert a + b == a;
    } else {
      assert (a + b)[..|a + b| - 1] == a + b[..|b| - 1];
      TotalConcat(a, b[..|b| - 1], e);
    }
  }

  lemma TotalOne(e: string, n: nat, f: string)
    ensures Total([(e, n)], f) == if f == e then n else 0
  {
    assert [(e, n)][..0] == [];
  }

  /** Freeing two lists of slots at once is freeing one and then the other. */
  lemma UnboundConcat(record: Record, a: seq<(string, nat)>, b: seq<(string, nat)>)
    ensures Unbound(record, a + b) == Unbound(Unbound(record, a), b)
  {
    var r := Unbound(Unbound(record, a), b);
    forall i | 0 <= i < |record| ensures Unbound(record, a + b)[i] == r[i] {
      UnboundAt(record, a + b, i);
      UnboundAt(record, a, i);
      UnboundAt(Unbound(record, a), b, i);
      TotalConcat(a, b, record[i].executorId);
    }
  }

  /** Freeing n slots of one executor adds n to its entries and leaves all others as they are. */
  lemma UnboundOne(record: Record, e: string, n: nat)
    ensures |Unbound(record, [(e, n)])| == |record|
    ensures forall i :: 0 <= i < |record| ==>
              Unbound(record, [(e, n)])[i] ==
              if record[i].executorId == e then ExecutorSlots(e, record[i].slots + n) else record[i]
  {
    forall i | 0 <= i < |record|
      ensures Unbound(record, [(e, n)])[i] ==
              if record[i].executorId == e then ExecutorSlots(e, record[i].slots + n) else record[i]
    {
      UnboundAt(record, [(e, n)], i);
      TotalOne(e, n, record[i].executorId);
    }
  }

  /** Freeing nothing changes nothing. */
  lemma UnboundNone(record: Record)
    ensures Unbound(record, []) == record
  {
    forall i | 0 <= i < |record| ensures Unbound(record, [])[i] == record[i] {
      UnboundAt(record, [], i);
    }
  }

  /** The same laws for the map that the in-memory implementation keeps. */
  lemma UnboundMapConcat(taskSlots: map<string, nat>, a: seq<(string, nat)>, b: seq<(string, nat)>)
    ensures UnboundMap(taskSlots, a + b) == UnboundMap(UnboundMap(taskSlots, a), b)
  {
    forall e | e in taskSlots ensures Total(a + b, e) == Total(a, e) + Total(b, e) {
      TotalConcat(a, b, e);
    }
  }

  lemma UnboundMapOne(taskSlots: map<string, nat>, e: string, n: nat)
    ensures UnboundMap(taskSlots, [(e, n)]) ==
            if e in taskSlots then taskSlots[e := taskSlots[e] + n] else taskSlots
  {
    forall f | f in taskSlots ensures Total([(e, n)], f) == if f == e then n else 0 {
      TotalOne(e, n, f);
    }
  }

  /** The first executor with this id is replaced, or a new one appended. */
  function Registered(record: Record, executorId: string, slots: nat): Record {
    if record == [] then [ExecutorSlots(executorId, slots)]
    else if record[0].executorId == executorId then [ExecutorSlots(executorId, slots)] + record[1..]
    else [record[0]] + Registered(record[1..], executorId, slots)
  }

  method RegisterInRecord(record: Record, executorId: string, slots: nat) returns (r: Record)
    ensures r == Registered(record, executorId, slots)
  {
    var i := 0;
    while i < |record| && record[i].executorId != executorId
      invariant 0 <= i <= |record| && forall j :: 0 <= j < i ==> record[j].executorId != executorId
    {
      i := i + 1;
    }
    RegisteredAt(record, executorId, slots, i);
    if i < |record| {
      r := record[i := ExecutorSlots(executorId, slots)];
    } else {
      r := record + [ExecutorSlots(executorId, slots)];
    }
  }

  lemma {:induction false} RegisteredAt(record: Record, executorId: string, slots: nat, i: nat)
    requires i <= |record| && forall j :: 0 <= j < i ==> record[j].executorId != executorId
    requires i < |record| ==> record[i].executorId == executorId
    ensures Registered(record, executorId, slots) ==
            if i < |record| then record[i := ExecutorSlots(executorId, slots)]
            else record + [ExecutorSlots(executorId, slots)]
  {
    if i > 0 {
      assert record[0].executorId != executorId;
      RegisteredAt(record[1..], executorId, slots, i - 1);
    }
  }

  predicate Holds(record: Record, executorId: string) {
    exists i :: 0 <= i < |record| && record[i].executorId == executorId
  }

  predicate DistinctIds(record: Record) {
    forall i, j :: 0 <= i < j < |record| ==> record[i].executorId != record[j].executorId
  }

  /** A record of the key-value store and the in-memory map hold the same slots. */
  ghost predicate Agree(record: Record, taskSlots: map<string, nat>) {
    && (forall e :: e in taskSlots <==> Holds(record, e))
    && (forall i :: 0 <= i < |record| ==>
          record[i].executorId in taskSlots && taskSlots[record[i].executorId] == record[i].slots)
  }

  lemma {:induction false} UnboundAt(record: Record, pairs: seq<(string, nat)>, i: nat)
    requires i < |record|
    ensures Unbound(record, pairs)[i] ==
            ExecutorSlots(record[i].executorId, record[i].slots + Total(pairs, record[i].executorId))
  {
    if i < |record| - 1 {
      UnboundAt(record[..|record| - 1], pairs, i);
    }
  }

  /** Freeing slots keeps the two implementations in agreement, whichever one walks over what. */
  lemma UnbindAgrees(record: Record, taskSlots: map<string, nat>, pairs: seq<(string, nat)>)
    requires Agree(record, taskSlots)
    ensures Agree(Unbound(record, pairs), UnboundMap(taskSlots, pairs))
  {
    var r := Unbound(record, pairs);
    forall i | 0 <= i < |record|
      ensures r[i] == ExecutorSlots(record[i].executorId, record[i].slots + Total(pairs, record[i].executorId))
    {
      UnboundAt(record, pairs, i);
    }
    forall e ensures Holds(r, e) == Holds(record, e) {
      if Holds(record, e) {
        var i :| 0 <= i < |record| && record[i].executorId == e;
        assert r[i].executorId == e;
      }
    }
  }

  /** Registering puts the executor into the record once and leaves every other executor alone. */
  lemma {:induction false} RegisterKeepsDistinct(record: Record, executorId: string, slots: nat)
    requires DistinctIds(record)
    ensures DistinctIds(Registered(record, executorId, slots))
    ensures forall e :: Holds(Registered(record, executorId, slots), e) <==> e == executorId || Holds(record, e)
    ensures forall x :: x in Registered(record, executorId, slots) <==>
              x == ExecutorSlots(executorId, slots) || (x in record && x.executorId != executorId)
  {
    var r := Registered(record, executorId, slots);
    if record != [] && record[0].executorId != executorId {
      RegisterKeepsDistinct(record[1..], executorId, slots);
      assert r[1..] == Registered(record[1..], executorId, slots);
    }
    forall x ensures x in r <==> x == ExecutorSlots(executorId, slots) || (x in record && x.executorId != executorId) {
      assert record != [] ==> record == [record[0]] + record[1..];
    }
    forall e ensures Holds(r, e) <==> e == executorId || Holds(record, e) {
      HoldsIff(r, e);
      HoldsIff(record, e);
    }
  }

  lemma HoldsIff(record: Record, e: string)
    ensures Holds(record, e) <==> exists x :: x in record && x.executorId == e
  {
  }

  /** Registering keeps the two implementations in agreement. */
  lemma RegisterAgrees(record: Record, taskSlots: map<string, nat>, executorId: string, slots: nat)
    requires DistinctIds(record) && Agree(record, taskSlots)
    ensures Agree(Registered(record, executorId, slots), taskSlots[executorId := slots])
  {
    RegisterKeepsDistinct(record, executorId, slots);
    var r := Registered(record, executorId, slots);
    forall i | 0 <= i < |r|
      ensures r[i].executorId in taskSlots[executorId := slots]
      ensures taskSlots[executorId := slots][r[i].executorId] == r[i].slots
    {
      assert r[i] in r;
    }
  }

  // ---------- Many schedulers ----------

  /**
   A bind wants slots for so many tasks, of all executors or of the admitted ones, and chooses them from
   the record that it reads.
   */
  datatype Update =
    | Unbind(pairs: seq<(string, nat)>)
    | Register(executorId: string, slots: nat)
    | Bind(tasks: nat, executors: Option<set<string>>, choose: Record -> Record)

  predicate Admits(executors: Option<set<string>>, executorId: string) {
    executors.None? || executorId in executors.value
  }

  /** The free slots of the admitted executors. */
  function FreeSlots(record: Record, executors: Option<set<string>>): nat {
    if record == [] then 0
    else
      var last := record[|record| - 1];
      FreeSlots(record[..|record| - 1], executors) + if Admits(executors, last.executorId) then last.slots else 0
  }

  /** Binding leaves every executor in its place, with at most the slots it had. */
  predicate OnlyTakes(before: Record, after: Record) {
    && |after| == |before|
    && forall i :: 0 <= i < |before| ==>
         after[i].executorId == before[i].executorId && after[i].slots <= before[i].slots
  }

  /** As many tasks are bound as there are free slots for, on admitted executors. */
  predicate Takes(tasks: nat, executors: Option<set<string>>, before: Record, after: Record) {
    var free := FreeSlots(before, executors);
    && OnlyTakes(before, after)
    && (forall i :: 0 <= i < |before| && !Admits(executors, before[i].executorId) ==> after[i] == before[i])
    && FreeSlots(after, executors) == if tasks < free then free - tasks else 0
  }

  /** However the executors are chosen, that is what a bind does. */
  ghost predicate Valid(u: Update) {
    u.Bind? ==> forall record :: Takes(u.tasks, u.executors, record, u.choose(record))
  }

  ghost predicate AllValid(updates: seq<Update>) {
    forall p :: 0 <= p < |updates| ==> Valid(updates[p])
  }

  /** One way of choosing: one executor after the other gives all its slots, as long as there are tasks. */
  function Emptied(tasks: nat, executors: Option<set<string>>, record: Record): Record {
    if record == [] then []
    else
      var front := record[..|record| - 1];
      Emptied(tasks, executors, front) +
      [EmptiedOne(tasks, executors, FreeSlots(front, executors), record[|record| - 1])]
  }

  function EmptiedOne(tasks: nat, executors: Option<set<string>>, free: nat, x: ExecutorSlots): ExecutorSlots {
    var rest := if tasks < free || !Admits(executors, x.executorId) then 0 else tasks - free;
    ExecutorSlots(x.executorId, if rest < x.slots then x.slots - rest else 0)
  }

  lemma FreeSlotsSnoc(record: Record, x: ExecutorSlots, executors: Option<set<string>>)
    ensures FreeSlots(record + [x], executors) ==
            FreeSlots(record, executors) + if Admits(executors, x.executorId) then x.slots else 0
  {
    assert (record + [x])[..|record|] == record;
  }

  lemma TakesSnoc(tasks: nat, executors: Option<set<string>>, before: Record, after: Record, x: ExecutorSlots)
    requires Takes(tasks, executors, before, after)
    ensures Takes(tasks, executors, before + [x],
                  after + [EmptiedOne(tasks, executors, FreeSlots(before, executors), x)])
  {
    var y := EmptiedOne(tasks, executors, FreeSlots(before, executors), x);
    FreeSlotsSnoc(before, x, executors);
    FreeSlotsSnoc(after, y, executors);
    assert OnlyTakes(before + [x], after + [y]);
  }

  lemma {:induction false} EmptiedTakes(tasks: nat, executors: Option<set<string>>, record: Record)
    ensures Takes(tasks, executors, record, Emptied(tasks, executors, record))
  {
    if record != [] {
      var front, last := record[..|record| - 1], record[|record| - 1];
      EmptiedTakes(tasks, executors, front);
      TakesSnoc(tasks, executors, front, Emptied(tasks, executors, front), last);
      assert front + [last] == record;
    }
  }

  lemma EmptyingIsValid(tasks: nat, executors: Option<set<string>>)
    ensures Valid(Bind(tasks, executors, record => Emptied(tasks, executors, record)))
  {
    forall record ensures Takes(tasks, executors, record, Emptied(tasks, executors, record)) {
      EmptiedTakes(tasks, executors, record);
    }
  }

  function Effect(u: Update, record: Record): Record {
    match u
    case Unbind(pairs) => Unbound(record, pairs)
    case Register(e, n) => Registered(record, e, n)
    case Bind(_, _, choose) => choose(record)
  }

  /** What the store holds after an update that read snapshot: a bind that binds nothing does not write. */
  function Stored(u: Update, snapshot: Record, current: Record): Record {
    var r := Effect(u, snapshot);
    if u.Bind? && r == snapshot then current else r
  }

  /** Updates that never write: there is nothing to bind, or nowhere to bind it. */
  predicate Silent(u: Update) {
    u.Bind? && (u.tasks == 0 || u.executors == Some({}))
  }

  lemma {:induction false} NothingTaken(executors: Option<set<string>>, before: Record, after: Record)
    requires OnlyTakes(before, after)
    ensures FreeSlots(after, executors) <= FreeSlots(before, executors)
    ensures FreeSlots(after, executors) == FreeSlots(before, executors) ==>
              forall i :: 0 <= i < |before| && Admits(executors, before[i].executorId) ==> after[i] == before[i]
  {
    if before != [] {
      NothingTaken(executors, before[..|before| - 1], after[..|after| - 1]);
    }
  }

  lemma {:induction false} NobodyAdmitted(record: Record)
    ensures FreeSlots(record, Some({})) == 0
  {
    if record != [] {
      NobodyAdmitted(record[..|record| - 1]);
    }
  }

  lemma SilentHasNoEffect(u: Update, record: Record)
    requires Valid(u) && Silent(u)
    ensures Effect(u, record) == record
  {
    var r := u.choose(record);
    assert Takes(u.tasks, u.executors, record, r);
    NothingTaken(u.executors, record, r);
    if u.executors == Some({}) {
      NobodyAdmitted(record);
      NobodyAdmitted(r);
    }
  }

  function LockKey(u: Update): string {
    if u.Bind? then "global" else "all"
  }

  datatype Phase = Idle | Locked | Holding(snapshot: Record) | Written | Finished

  /** Each process runs one update; order lists the processes that have written, oldest first. */
  datatype State = State(record: Record, locks: map<string, nat>, phases: seq<Phase>, order: seq<nat>)

  datatype Step = Acquire(p: nat) | Read(p: nat) | Write(p: nat) | Release(p: nat)

  predicate Enabled(updates: seq<Update>, s: State, step: Step) {
    && |s.phases| == |updates| && step.p < |updates|
    && match step
       case Acquire(p) => s.phases[p].Idle? && LockKey(updates[p]) !in s.locks
       case Read(p) => s.phases[p].Locked?
       case Write(p) => s.phases[p].Holding?
       case Release(p) => s.phases[p].Written?
  }

  function Next(updates: seq<Update>, s: State, step: Step): State
    requires Enabled(updates, s, step)
  {
    match step
    case Acquire(p) => s.(locks := s.locks[LockKey(updates[p]) := p], phases := s.phases[p := Locked])
    case Read(p) => s.(phases := s.phases[p := Holding(s.record)])
    case Write(p) =>
      s.(record := Stored(updates[p], s.phases[p].snapshot, s.record), phases := s.phases[p := Written],
         order := s.order + [p])
    case Release(p) => s.(locks := s.locks - {LockKey(updates[p])}, phases := s.phases[p := Finished])
  }

  function Start(updates: seq<Update>, record: Record): State {
    State(record, map[], seq(|updates|, _ => Idle), [])
  }

  /** Step i leads to the next state. */
  ghost predicate Follows(updates: seq<Update>, states: seq<State>, steps: seq<Step>, i: nat) {
    && i < |steps| && i + 1 < |states|
    && Enabled(updates, states[i], steps[i]) && states[i + 1] == Next(updates, states[i], steps[i])
  }

  /** The states lead from the first to the last by the steps. */
  ghost predicate Leads(updates: seq<Update>, states: seq<State>, steps: seq<Step>) {
    |states| == |steps| + 1 && forall i: nat :: i < |steps| ==> Follows(updates, states, steps, i)
  }

  ghost predicate IsRun(updates: seq<Update>, record: Record, states: seq<State>, steps: seq<Step>) {
    Leads(updates, states, steps) && states[0] == Start(updates, record)
  }

  /** The record after the given processes have run one after the other. */
  function Serial(updates: seq<Update>, record: Record, order: seq<nat>): Record
    requires forall i :: 0 <= i < |order| ==> order[i] < |updates|
  {
    if order == [] then record
    else Effect(updates[order[|order| - 1]], Serial(updates, record, order[..|order| - 1]))
  }

  predicate InSection(phase: Phase) {
    phase.Locked? || phase.Holding? || phase.Written?
  }

  predicate HasWritten(phase: Phase) {
    phase.Written? || phase.Finished?
  }

  /** Whoever is between acquiring and releasing holds the lock. */
  predicate LocksHeld(updates: seq<Update>, s: State) {
    && |s.phases| == |updates|
    && forall p :: 0 <= p < |updates| && InSection(s.phases[p]) ==>
         LockKey(updates[p]) in s.locks && s.locks[LockKey(updates[p])] == p
  }

  predicate SnapshotsCurrent(updates: seq<Update>, s: State)
    requires |s.phases| == |updates|
  {
    forall p :: 0 <= p < |updates| && !Silent(updates[p]) && s.phases[p].Holding? ==>
      s.phases[p].snapshot == s.record
  }

  /** The order lists exactly those that have written, each once. */
  predicate OrderComplete(s: State) {
    && (forall i :: 0 <= i < |s.order| ==> s.order[i] < |s.phases| && HasWritten(s.phases[s.order[i]]))
    && (forall p :: 0 <= p < |s.phases| && HasWritten(s.phases[p]) ==> p in s.order)
    && (forall i, j :: 0 <= i < j < |s.order| ==> s.order[i] != s.order[j])
  }

  predicate Inv(updates: seq<Update>, record: Record, s: State) {
    && LocksHeld(updates, s) && SnapshotsCurrent(updates, s) && OrderComplete(s)
    && s.record == Serial(updates, record, s.order)
  }

  /** All updates that may write contend for the same lock. */
  predicate OneLock(updates: seq<Update>) {
    forall p, q :: 0 <= p < |updates| && 0 <= q < |updates| && !Silent(updates[p]) && !Silent(updates[q]) ==>
      LockKey(updates[p]) == LockKey(updates[q])
  }

  lemma LocksHeldNext(updates: seq<Update>, s: State, step: Step)
    requires LocksHeld(updates, s) && Enabled(updates, s, step)
    ensures LocksHeld(updates, Next(updates, s, step))
  {
    assert step.Release? ==> InSection(s.phases[step.p]);
  }

  lemma {:induction false} LocksAlwaysHeld(
    updates: seq<Update>, record: Record, states: seq<State>, steps: seq<Step>, n: nat)
    requires IsRun(updates, record, states, steps) && n <= |steps|
    ensures LocksHeld(updates, states[n])
  {
    if n > 0 {
      LocksAlwaysHeld(updates, record, states, steps, n - 1);
      assert Follows(updates, states, steps, n - 1);
      LocksHeldNext(updates, states[n - 1], steps[n - 1]);
    }
  }

  /**
   In every run of any updates, two processes that lock the same key are never between acquiring and
   releasing at the same time.
   */
  lemma Exclusive(
    updates: seq<Update>, record: Record, states: seq<State>, steps: seq<Step>, n: nat, p: nat, q: nat)
    requires IsRun(updates, record, states, steps) && n <= |steps| && p < |updates| && q < |updates|
    requires LockKey(updates[p]) == LockKey(updates[q])
    ensures |states[n].phases| == |updates|
    ensures InSection(states[n].phases[p]) && InSection(states[n].phases[q]) ==> p == q
  {
    LocksAlwaysHeld(updates, record, states, steps, n);
  }

  lemma SnapshotsCurrentNext(updates: seq<Update>, s: State, step: Step)
    requires AllValid(updates) && OneLock(updates)
    requires LocksHeld(updates, s) && SnapshotsCurrent(updates, s) && Enabled(updates, s, step)
    ensures SnapshotsCurrent(updates, Next(updates, s, step))
  {
    var p := step.p;
    if step.Write? && Silent(updates[p]) {
      SilentHasNoEffect(updates[p], s.phases[p].snapshot);
    } else if step.Write? {
      forall q | 0 <= q < |updates| && !Silent(updates[q]) && s.phases[q].Holding? ensures p == q {
        assert LockKey(updates[p]) == LockKey(updates[q]);
      }
    }
  }

  lemma OrderCompleteNext(updates: seq<Update>, s: State, step: Step)
    requires OrderComplete(s) && Enabled(updates, s, step)
    ensures OrderComplete(Next(updates, s, step))
  {
    var s' := Next(updates, s, step);
    if step.Write? {
      assert s'.order[|s.order|] == step.p && !HasWritten(s.phases[step.p]);
      assert forall i :: 0 <= i < |s.order| ==> s'.order[i] == s.order[i] && s.order[i] != step.p;
    }
  }

  /** What an update stores is its effect on what the record holds, if it read that or never writes. */
  lemma StoredIsEffect(u: Update, snapshot: Record, current: Record)
    requires Valid(u) && (Silent(u) || snapshot == current)
    ensures Stored(u, snapshot, current) == Effect(u, current)
  {
    if Silent(u) {
      SilentHasNoEffect(u, snapshot);
      SilentHasNoEffect(u, current);
    }
  }

  lemma SerialNext(updates: seq<Update>, record: Record, s: State, step: Step)
    requires AllValid(updates) && Inv(updates, record, s)
    requires Enabled(updates, s, step) && OrderComplete(Next(updates, s, step))
    ensures Next(updates, s, step).record == Serial(updates, record, Next(updates, s, step).order)
  {
    if step.Write? {
      assert (s.order + [step.p])[..|s.order|] == s.order;
      StoredIsEffect(updates[step.p], s.phases[step.p].snapshot, s.record);
    }
  }

  lemma InvNext(updates: seq<Update>, record: Record, s: State, step: Step)
    requires AllValid(updates) && OneLock(updates) && Inv(updates, record, s) && Enabled(updates, s, step)
    ensures Inv(updates, record, Next(updates, s, step))
  {
    LocksHeldNext(updates, s, step);
    SnapshotsCurrentNext(updates, s, step);
    OrderCompleteNext(updates, s, step);
    SerialNext(updates, record, s, step);
  }

  lemma {:induction false} InvAlways(
    updates: seq<Update>, record: Record, states: seq<State>, steps: seq<Step>, n: nat)
    requires AllValid(updates) && OneLock(updates) && IsRun(updates, record, states, steps) && n <= |steps|
    ensures Inv(updates, record, states[n])
  {
    if n > 0 {
      InvAlways(updates, record, states, steps, n - 1);
      assert Follows(updates, states, steps, n - 1);
      InvNext(updates, record, states[n - 1], steps[n - 1]);
    }
  }

  predicate AllFinished(s: State) {
    forall p :: 0 <= p < |s.phases| ==> s.phases[p].Finished?
  }

  /** The processes in some order, each exactly once. */
  ghost predicate IsPermutation(order: seq<nat>, n: nat) {
    && (forall i :: 0 <= i < |order| ==> order[i] < n)
    && (forall p: nat :: p < n ==> p in order)
    && (forall i, j :: 0 <= i < j < |order| ==> order[i] != order[j])
  }

  ghost predicate IsSerial(updates: seq<Update>, record: Record, final: Record) {
    exists order :: IsPermutation(order, |updates|) && Serial(updates, record, order) == final
  }

  /**
   However the steps of any number of schedulers interleave, the record they leave behind is the one
   that running the updates one after the other, in some order, leaves behind.
   */
  lemma Serializable(updates: seq<Update>, record: Record, states: seq<State>, steps: seq<Step>)
    requires AllValid(updates) && OneLock(updates) && IsRun(updates, record, states, steps)
    requires AllFinished(states[|steps|])
    ensures IsSerial(updates, record, states[|steps|].record)
  {
    InvAlways(updates, record, states, steps, |steps|);
    assert IsPermutation(states[|steps|].order, |updates|);
  }

  // ---------- No increment is lost ----------

  /** What the processes that have written gave back to an executor. */
  function Freed(updates: seq<Update>, phases: seq<Phase>, executorId: string): nat
    requires |phases| == |updates|
  {
    if updates == [] then 0
    else
      var n := |updates| - 1;
      Freed(updates[..n], phases[..n], executorId) + if HasWritten(phases[n]) then Gives(updates[n], executorId) else 0
  }

  /** What an update gives back to an executor. */
  function Gives(u: Update, executorId: string): nat {
    if u.Unbind? then Total(u.pairs, executorId) else 0
  }

  lemma {:induction false} FreedByOneMore(
    updates: seq<Update>, phases: seq<Phase>, p: nat, phase: Phase, executorId: string)
    requires |phases| == |updates| && p < |phases|
    ensures Freed(updates, phases[p := phase], executorId) == Freed(updates, phases, executorId)
            + (if HasWritten(phase) then Gives(updates[p], executorId) else 0)
            - (if HasWritten(phases[p]) then Gives(updates[p], executorId) else 0)
  {
    var n := |updates| - 1;
    if p == n {
      assert phases[p := phase][..n] == phases[..n];
    } else {
      assert phases[p := phase][..n] == phases[..n][p := phase];
      FreedByOneMore(updates[..n], phases[..n], p, phase, executorId);
    }
  }

  /** Slots are given back and executors registered, but not this one. */
  predicate NotReset(updates: seq<Update>, executorId: string) {
    forall p :: 0 <= p < |updates| ==>
      !updates[p].Bind? && (updates[p].Register? ==> updates[p].executorId != executorId)
  }

  lemma {:induction false} RegisteredElsewhere(record: Record, executorId: string, slots: nat, i: nat)
    requires i < |record| && record[i].executorId != executorId
    ensures |Registered(record, executorId, slots)| >= |record|
    ensures Registered(record, executorId, slots)[i] == record[i]
  {
    if i > 0 && record[0].executorId != executorId {
      RegisteredElsewhere(record[1..], executorId, slots, i - 1);
    } else if i == 0 && |record| > 1 && record[1].executorId != executorId {
      RegisteredGrows(record[1..], executorId, slots);
    }
  }

  lemma {:induction false} RegisteredGrows(record: Record, executorId: string, slots: nat)
    ensures |Registered(record, executorId, slots)| >= |record|
  {
    if record != [] {
      RegisteredGrows(record[1..], executorId, slots);
    }
  }

  lemma {:induction false} FreedAtStart(updates: seq<Update>, phases: seq<Phase>, executorId: string)
    requires |phases| == |updates|
    requires forall p :: 0 <= p < |phases| ==> phases[p].Idle?
    ensures Freed(updates, phases, executorId) == 0
  {
    if updates != [] {
      var n := |updates| - 1;
      FreedAtStart(updates[..n], phases[..n], executorId);
    }
  }

  lemma OneEffect(u: Update, record: Record, i: nat)
    requires i < |record| && !u.Bind? && (u.Register? ==> u.executorId != record[i].executorId)
    ensures i < |Effect(u, record)| && Effect(u, record)[i].executorId == record[i].executorId
    ensures Effect(u, record)[i].slots == record[i].slots + Gives(u, record[i].executorId)
  {
    match u
    case Unbind(pairs) => UnboundAt(record, pairs, i);
    case Register(e, n) => RegisteredElsewhere(record, e, n, i);
  }

  /**
   While slots are given back and executors come and register, an executor that does not register
   anew has, at every moment of every run, what it had plus all that has been given back so far.
   */
  lemma {:induction false} NoIncrementLost(
    updates: seq<Update>, record: Record, states: seq<State>, steps: seq<Step>, n: nat, i: nat)
    requires IsRun(updates, record, states, steps) && n <= |steps|
    requires i < |record| && NotReset(updates, record[i].executorId)
    ensures |states[n].phases| == |updates| && i < |states[n].record|
    ensures states[n].record[i].executorId == record[i].executorId
    ensures states[n].record[i].slots ==
            record[i].slots + Freed(updates, states[n].phases, record[i].executorId)
  {
    if n == 0 {
      FreedAtStart(updates, states[0].phases, record[i].executorId);
    } else {
      NoIncrementLost(updates, record, states, steps, n - 1, i);
      var s, step := states[n - 1], steps[n - 1];
      assert Follows(updates, states, steps, n - 1);
      FreedByOneMore(updates, s.phases, step.p, states[n].phases[step.p], record[i].executorId);
      if step.Write? {
        InvAlways(updates, record, states, steps, n - 1);
        OneEffect(updates[step.p], s.record, i);
      }
    }
  }

  // ---------- Two locks for one record ----------

  /** Every run of the two updates that finishes, from every record, ends as a serial one does. */
  ghost predicate AlwaysSerializable(u: Update, v: Update) {
    forall record: Record, states: seq<State>, steps: seq<Step> ::
      IsRun([u, v], record, states, steps) && AllFinished(states[|steps|]) ==>
        IsSerial([u, v], record, states[|steps|].record)
  }

  lemma SerialOfTwo(u: Update, v: Update, record: Record, final: Record)
    requires IsSerial([u, v], record, final)
    ensures final == Effect(v, Effect(u, record)) || final == Effect(u, Effect(v, record))
  {
    var updates := [u, v];
    var order :| IsPermutation(order, 2) && Serial(updates, record, order) == final;
    assert 0 in order && 1 in order;
    var last := |order| - 1;
    assert order[0] != order[1] && (order[last] == order[0] || order[last] == order[1]);
    assert order == [0, 1] || order == [1, 0];
    assert order[..1] == [order[0]];
    assert Serial(updates, record, [order[0]]) == Effect(updates[order[0]], Serial(updates, record, []));
  }

  lemma LeadsOn(updates: seq<Update>, a: seq<State>, b: seq<State>, before: seq<Step>, after: seq<Step>)
    requires Leads(updates, a, before) && Leads(updates, b, after) && a[|before|] == b[0]
    ensures Leads(updates, a + b[1..], before + after)
  {
    var states, steps := a + b[1..], before + after;
    forall i: nat | i < |steps| ensures Follows(updates, states, steps, i) {
      if i < |before| {
        assert Follows(updates, a, before, i);
      } else {
        assert Follows(updates, b, after, i - |before|);
      }
    }
  }

  /** Two processes have taken different locks and read the record; p is to write first. */
  predicate BothHold(updates: seq<Update>, record: Record, p: nat, q: nat, s: State) {
    && |updates| == |s.phases| == 2 && p + q == 1 && s.record == record
    && s.phases[p] == Holding(record) && s.phases[q] == Holding(record)
  }

  lemma BothRead(updates: seq<Update>, record: Record, p: nat, q: nat) returns (states: seq<State>)
    requires |updates| == 2 && p + q == 1 && LockKey(updates[p]) != LockKey(updates[q])
    ensures Leads(updates, states, [Acquire(p), Acquire(q), Read(p), Read(q)])
    ensures states[0] == Start(updates, record) && BothHold(updates, record, p, q, states[4])
  {
    var s0 := Start(updates, record);
    var s1 := Next(updates, s0, Acquire(p));
    var s2 := Next(updates, s1, Acquire(q));
    var s3 := Next(updates, s2, Read(p));
    states := [s0, s1, s2, s3, Next(updates, s3, Read(q))];
  }

  lemma BothWrite(updates: seq<Update>, record: Record, p: nat, q: nat, s: State) returns (states: seq<State>)
    requires BothHold(updates, record, p, q, s)
    ensures Leads(updates, states, [Write(p), Write(q), Release(p), Release(q)])
    ensures states[0] == s && AllFinished(states[4])
    ensures states[4].record == Stored(updates[q], record, Stored(updates[p], record, record))
  {
    var s1 := Next(updates, s, Write(p));
    var s2 := Next(updates, s1, Write(q));
    var s3 := Next(updates, s2, Release(p));
    states := [s, s1, s2, s3, Next(updates, s3, Release(q))];
  }

  /** Two updates under different locks can race: both read before either writes, and the second write wins. */
  lemma Race(u: Update, v: Update, record: Record, p: nat, q: nat) returns (states: seq<State>, steps: seq<Step>)
    requires LockKey(u) != LockKey(v) && p + q == 1
    ensures IsRun([u, v], record, states, steps) && AllFinished(states[|steps|])
    ensures states[|steps|].record ==
            Stored([u, v][q], record, Stored([u, v][p], record, record))
  {
    var a := BothRead([u, v], record, p, q);
    var b := BothWrite([u, v], record, p, q, a[4]);
    var before, after := [Acquire(p), Acquire(q), Read(p), Read(q)], [Write(p), Write(q), Release(p), Release(q)];
    LeadsOn([u, v], a, b, before, after);
    states, steps := a + b[1..], before + after;
    assert states[0] == a[0] && states[|steps|] == b[4];
  }

  /** The record after both have read it and written, the first of them first. */
  function Raced(first: Update, second: Update, record: Record): Record {
    Stored(second, record, Stored(first, record, record))
  }

  /** What a bind leaves of the slots of a single executor. */
  lemma TakesOne(u: Update, e: string, slots: nat)
    requires Valid(u) && u.Bind? && Admits(u.executors, e)
    ensures u.choose([ExecutorSlots(e, slots)]) ==
            [ExecutorSlots(e, if u.tasks < slots then slots - u.tasks else 0)]
  {
    var before := [ExecutorSlots(e, slots)];
    var after := u.choose(before);
    assert Takes(u.tasks, u.executors, before, after);
    assert before[..0] == [] && after[..0] == [];
  }

  /** With enough free slots a bind takes some. */
  lemma TakesSome(u: Update, record: Record)
    requires Valid(u) && u.Bind? && u.tasks > 0 && FreeSlots(record, u.executors) > 0
    ensures u.choose(record) != record
  {
    assert Takes(u.tasks, u.executors, record, u.choose(record));
  }

  lemma SomeExecutor(u: Update) returns (e: string)
    requires u.Bind? && !Silent(u)
    ensures Admits(u.executors, e)
  {
    e := "";
    if u.executors.Some? {
      assert u.executors.value != {};
      e :| e in u.executors.value;
    }
  }

  lemma LostToUnbind(u: Update, pairs: seq<(string, nat)>) returns (record: Record)
    requires Valid(u) && u.Bind? && !Silent(u)
    ensures var v := Unbind(pairs);
            Raced(u, v, record) != Effect(v, Effect(u, record)) && Raced(u, v, record) != Effect(u, Effect(v, record))
  {
    var e := SomeExecutor(u);
    record := [ExecutorSlots(e, u.tasks)];
    TakesOne(u, e, u.tasks);
    UnboundAt(record, pairs, 0);
    UnboundAt([ExecutorSlots(e, 0)], pairs, 0);
    TakesOne(u, e, u.tasks + Total(pairs, e));
  }

  /** The bind overwrites the registration of the executor it takes slots from. */
  lemma LostToSame(u: Update, e: string, slots: nat) returns (record: Record)
    requires Valid(u) && u.Bind? && !Silent(u) && Admits(u.executors, e)
    ensures var v := Register(e, slots);
            Raced(v, u, record) != Effect(v, Effect(u, record)) && Raced(v, u, record) != Effect(u, Effect(v, record))
  {
    var many := slots + u.tasks + 1;
    record := [ExecutorSlots(e, many)];
    TakesOne(u, e, many);
    TakesOne(u, e, slots);
    RegisteredOne(e, many, e, slots);
    RegisteredOne(e, slots + 1, e, slots);
  }

  /** The registration of another executor gives the slots that were taken back. */
  lemma LostToAnother(u: Update, e: string, f: string, slots: nat) returns (record: Record)
    requires Valid(u) && u.Bind? && !Silent(u) && Admits(u.executors, e) && e != f
    ensures var v := Register(f, slots);
            Raced(u, v, record) != Effect(v, Effect(u, record)) && Raced(u, v, record) != Effect(u, Effect(v, record))
  {
    record := [ExecutorSlots(e, u.tasks)];
    TakesOne(u, e, u.tasks);
    RegisteredOne(e, u.tasks, f, slots);
    RegisteredOne(e, 0, f, slots);
    FreeSlotsSnoc([], ExecutorSlots(e, u.tasks), u.executors);
    FreeSlotsSnoc(record, ExecutorSlots(f, slots), u.executors);
    assert [] + record == record;
    TakesSome(u, record + [ExecutorSlots(f, slots)]);
  }

  lemma RegisteredOne(e: string, n: nat, f: string, slots: nat)
    ensures Registered([ExecutorSlots(e, n)], f, slots) ==
            if e == f then [ExecutorSlots(f, slots)] else [ExecutorSlots(e, n)] + [ExecutorSlots(f, slots)]
  {
    assert [ExecutorSlots(e, n)][1..] == [];
  }

  lemma LostToRegister(u: Update, v: Update) returns (record: Record, bindFirst: bool)
    requires Valid(u) && u.Bind? && !Silent(u) && v.Register?
    ensures var raced := if bindFirst then Raced(u, v, record) else Raced(v, u, record);
            raced != Effect(v, Effect(u, record)) && raced != Effect(u, Effect(v, record))
  {
    var e := SomeExecutor(u);
    if v.executorId == e {
      bindFirst := false;
      record := LostToSame(u, e, v.slots);
    } else {
      bindFirst := true;
      record := LostToAnother(u, e, v.executorId, v.slots);
    }
  }

  /** For every bind that can take slots there is a record on which it races with any other update, and one is lost. */
  lemma LostUpdate(u: Update, v: Update) returns (record: Record, bindFirst: bool)
    requires Valid(u) && u.Bind? && !Silent(u) && !v.Bind?
    ensures var raced := if bindFirst then Raced(u, v, record) else Raced(v, u, record);
            raced != Effect(v, Effect(u, record)) && raced != Effect(u, Effect(v, record))
  {
    if v.Unbind? {
      bindFirst := true;
      record := LostToUnbind(u, v.pairs);
    } else {
      record, bindFirst := LostToRegister(u, v);
    }
  }

  /**
   Whichever way binds choose their executors, two updates always leave a serial result behind if and only
   if both are binds, or neither is, or one of them is a bind that can take nothing.
   */
  lemma SerializableIff(u: Update, v: Update)
    requires Valid(u) && Valid(v)
    ensures AlwaysSerializable(u, v) <==> (u.Bind? <==> v.Bind?) || Silent(u) || Silent(v)
  {
    if (u.Bind? <==> v.Bind?) || Silent(u) || Silent(v) {
      forall record: Record, states: seq<State>, steps: seq<Step>
        | IsRun([u, v], record, states, steps) && AllFinished(states[|steps|])
        ensures IsSerial([u, v], record, states[|steps|].record)
      {
        Serializable([u, v], record, states, steps);
      }
    } else {
      var b, w := if u.Bind? then u else v, if u.Bind? then v else u;
      var record, bindFirst := LostUpdate(b, w);
      var p := if bindFirst == u.Bind? then 0 else 1;
      var states, steps := Race(u, v, record, p, 1 - p);
      if IsSerial([u, v], record, states[|steps|].record) {
        SerialOfTwo(u, v, record, states[|steps|].record);
      }
    }
  }
}
