/**
 Which stage of a job gets its tasks bound next: a running one with tasks left to bind and, when
 there is none, one of those that were waiting with their inputs resolved.
 */
module StageFetching {

  datatype Task = Task(job: nat, stage: nat, partition: nat)

  datatype Status = Running | Resolved | Other

  /** free[partition] says that the partition has no task yet; skip is the caller's filter on the plan. */
  datatype Stage = Stage(status: Status, skip: bool, free: seq<bool>)

  // ---------- Tasks left to bind ----------

  function FreeTasks(job: nat, stage: nat, free: seq<bool>): seq<Task> {
    if free == [] then []
    else
      var last := |free| - 1;
      FreeTasks(job, stage, free[..last]) + if free[last] then [Task(job, stage, last)] else []
  }

  function AllFree(n: nat): seq<bool> {
    seq(n, _ => true)
  }

  function NoneFree(n: nat): seq<bool> {
    seq(n, _ => false)
  }

  lemma {:induction false} NoTasks(job: nat, stage: nat, free: seq<bool>)
    ensures FreeTasks(job, stage, free) == [] <==> true !in free
  {
    if free != [] {
      NoTasks(job, stage, free[..|free| - 1]);
      assert free == free[..|free| - 1] + [free[|free| - 1]];
    }
  }

  /** By stage, then by partition. */
  predicate Before(a: Task, b: Task) {
    a.stage < b.stage || (a.stage == b.stage && a.partition < b.partition)
  }

  predicate Ascending(tasks: seq<Task>) {
    forall i, j :: 0 <= i < j < |tasks| ==> Before(tasks[i], tasks[j])
  }

  /** The free partitions, each once, in ascending order. */
  lemma {:induction false} FreeTasksAre(job: nat, stage: nat, free: seq<bool>)
    ensures forall x :: x in FreeTasks(job, stage, free) <==>
              x.job == job && x.stage == stage && x.partition < |free| && free[x.partition]
    ensures Ascending(FreeTasks(job, stage, free))
  {
    if free != [] {
      var last := |free| - 1;
      FreeTasksAre(job, stage, free[..last]);
      var front := FreeTasks(job, stage, free[..last]);
      assert forall i :: 0 <= i < |front| ==> front[i] in front;
    }
  }

  /** The stage is neither filtered out nor on the black list. */
  predicate Admitted(t: nat, s: Stage, blackList: set<nat>) {
    !s.skip && t !in blackList
  }

  /** What the stage offers while it is running. */
  function Offered(job: nat, t: nat, s: Stage, blackList: set<nat>): seq<Task> {
    if s.status.Running? && Admitted(t, s, blackList) then FreeTasks(job, t, s.free) else []
  }

  /** What the stage will offer once it is started. */
  function Waiting(job: nat, t: nat, s: Stage, blackList: set<nat>): seq<Task> {
    if s.status.Resolved? && Admitted(t, s, blackList) then FreeTasks(job, t, AllFree(|s.free|)) else []
  }

  function OfferedFrom(job: nat, stages: seq<Stage>, blackList: set<nat>, t: nat): seq<Task>
    requires t <= |stages|
    decreases |stages| - t
  {
    if t == |stages| then []
    else Offered(job, t, stages[t], blackList) + OfferedFrom(job, stages, blackList, t + 1)
  }

  function WaitingFrom(job: nat, stages: seq<Stage>, blackList: set<nat>, t: nat): seq<Task>
    requires t <= |stages|
    decreases |stages| - t
  {
    if t == |stages| then []
    else Waiting(job, t, stages[t], blackList) + WaitingFrom(job, stages, blackList, t + 1)
  }

  /** The tasks of the running stages, then those of the stages that wait to be started. */
  function TasksOfStages(job: nat, stages: seq<Stage>, blackList: set<nat>): seq<Task> {
    OfferedFrom(job, stages, blackList, 0) + WaitingFrom(job, stages, blackList, 0)
  }

  // ---------- Which tasks these are ----------

  /** The partition can be bound now: its stage is running and it has no task yet. */
  predicate Ready(stages: seq<Stage>, blackList: set<nat>, x: Task) {
    && x.stage < |stages| && stages[x.stage].status.Running? && Admitted(x.stage, stages[x.stage], blackList)
    && x.partition < |stages[x.stage].free| && stages[x.stage].free[x.partition]
  }

  /** The partition can be bound once its stage is started. */
  predicate Pending(stages: seq<Stage>, blackList: set<nat>, x: Task) {
    && x.stage < |stages| && stages[x.stage].status.Resolved? && Admitted(x.stage, stages[x.stage], blackList)
    && x.partition < |stages[x.stage].free|
  }

  lemma AscendingConcat(a: seq<Task>, b: seq<Task>)
    requires Ascending(a) && Ascending(b)
    requires forall x, y :: x in a && y in b ==> Before(x, y)
    ensures Ascending(a + b)
  {
    var all := a + b;
    forall i, j | 0 <= i < j < |all| ensures Before(all[i], all[j]) {
      if i < |a| <= j {
        assert all[i] in a && all[j] in b;
      }
    }
  }

  lemma {:induction false} OfferedAre(job: nat, stages: seq<Stage>, blackList: set<nat>, t: nat)
    requires t <= |stages|
    ensures forall x :: x in OfferedFrom(job, stages, blackList, t) <==>
              x.job == job && t <= x.stage && Ready(stages, blackList, x)
    ensures Ascending(OfferedFrom(job, stages, blackList, t))
    decreases |stages| - t
  {
    if t < |stages| {
      OfferedAre(job, stages, blackList, t + 1);
      FreeTasksAre(job, t, stages[t].free);
      AscendingConcat(Offered(job, t, stages[t], blackList), OfferedFrom(job, stages, blackList, t + 1));
    }
  }

  lemma WaitingOfStage(job: nat, t: nat, s: Stage, blackList: set<nat>)
    ensures Ascending(Waiting(job, t, s, blackList))
    ensures forall x :: x in Waiting(job, t, s, blackList) <==>
              && x.job == job && x.stage == t && s.status.Resolved? && Admitted(t, s, blackList)
              && x.partition < |s.free|
  {
    FreeTasksAre(job, t, AllFree(|s.free|));
  }

  lemma {:induction false} WaitingAre(job: nat, stages: seq<Stage>, blackList: set<nat>, t: nat)
    requires t <= |stages|
    ensures forall x :: x in WaitingFrom(job, stages, blackList, t) <==>
              x.job == job && t <= x.stage && Pending(stages, blackList, x)
    ensures Ascending(WaitingFrom(job, stages, blackList, t))
    decreases |stages| - t
  {
    if t < |stages| {
      WaitingAre(job, stages, blackList, t + 1);
      WaitingOfStage(job, t, stages[t], blackList);
      AscendingConcat(Waiting(job, t, stages[t], blackList), WaitingFrom(job, stages, blackList, t + 1));
    }
  }

  /** Tasks that can be bound now come first; among those and among the others, by stage and partition. */
  predicate Precedes(stages: seq<Stage>, blackList: set<nat>, x: Task, y: Task) {
    || (Ready(stages, blackList, x) && Pending(stages, blackList, y))
    || ((Ready(stages, blackList, x) <==> Ready(stages, blackList, y)) && Before(x, y))
  }

  /** The tasks of a job are the partitions that are ready or pending, each once and in that order. */
  lemma TasksOfStagesAre(job: nat, stages: seq<Stage>, blackList: set<nat>)
    ensures forall x :: x in TasksOfStages(job, stages, blackList) <==>
              x.job == job && (Ready(stages, blackList, x) || Pending(stages, blackList, x))
    ensures var tasks := TasksOfStages(job, stages, blackList);
            forall i, j :: 0 <= i < j < |tasks| ==> Precedes(stages, blackList, tasks[i], tasks[j])
  {
    OfferedAre(job, stages, blackList, 0);
    WaitingAre(job, stages, blackList, 0);
    var offered, waiting := OfferedFrom(job, stages, blackList, 0), WaitingFrom(job, stages, blackList, 0);
    var tasks := offered + waiting;
    forall i, j | 0 <= i < j < |tasks| ensures Precedes(stages, blackList, tasks[i], tasks[j]) {
      assert i < |offered| ==> tasks[i] in offered;
      assert i >= |offered| ==> tasks[i] in waiting;
      assert j < |offered| ==> tasks[j] in offered;
      assert j >= |offered| ==> tasks[j] in waiting;
    }
  }

  // ---------- Finding a stage ----------

  predicate HasTasks(s: Stage) {
    s.status.Running? && true in s.free
  }

  function Started(s: Stage): Stage {
    if s.status.Resolved? then Stage(Running, s.skip, AllFree(|s.free|)) else s
  }

  /**
   What binding may do to a stage: start it if it waits, and take away free partitions if it runs and is
   not filtered out.
   */
  predicate Progressed(s: Stage, s': Stage) {
    && s'.skip == s.skip && |s'.free| == |s.free|
    && (s.status.Other? ==> s' == s)
    && (s.status.Running? ==> s'.status.Running?)
    && (s.status.Resolved? ==> s' == s || s'.status.Running?)
    && (s.skip ==> s' == s || s' == Started(s))
  }

  predicate AllProgressed(stages: seq<Stage>, stages': seq<Stage>) {
    |stages'| == |stages| && forall i :: 0 <= i < |stages| ==> Progressed(stages[i], stages'[i])
  }

  lemma ProgressedOn(a: seq<Stage>, b: seq<Stage>, c: seq<Stage>)
    requires AllProgressed(a, b) && AllProgressed(b, c)
    ensures AllProgressed(a, c)
  {
    forall i | 0 <= i < |a| ensures Progressed(a[i], c[i]) {
      assert Progressed(a[i], b[i]) && Progressed(b[i], c[i]);
    }
  }

  predicate AllStarted(stages: seq<Stage>, stages': seq<Stage>) {
    |stages'| == |stages| && forall i :: 0 <= i < |stages| ==> stages'[i] == Started(stages[i])
  }

  /** From the first stage up to t, nothing is available. */
  predicate NoneBefore(stages: seq<Stage>, blackList: set<nat>, t: nat) {
    t <= |stages| && forall i :: 0 <= i < t ==> !HasTasks(stages[i]) || i in blackList
  }

  method FindAvailable(stages: seq<Stage>, blackList: set<nat>) returns (t: nat)
    ensures NoneBefore(stages, blackList, t) && (t < |stages| ==> HasTasks(stages[t]) && t !in blackList)
  {
    t := 0;
    while t < |stages| && (!HasTasks(stages[t]) || t in blackList)
      invariant NoneBefore(stages, blackList, t)
    {
      t := t + 1;
    }
  }

  /** Starts all the stages that wait; says whether there were any. */
  method Revive(stages: seq<Stage>) returns (stages': seq<Stage>, any: bool)
    ensures AllStarted(stages, stages')
    ensures any <==> exists i :: 0 <= i < |stages| && stages[i].status.Resolved?
  {
    stages', any := [], false;
    for t := 0 to |stages|
      invariant |stages'| == t && forall i :: 0 <= i < t ==> stages'[i] == Started(stages[i])
      invariant any <==> exists i :: 0 <= i < t && stages[i].status.Resolved?
    {
      any := any || stages[t].status.Resolved?;
      stages' := stages' + [Started(stages[t])];
    }
  }

  /** How much there is to do: every stage is started once and finished once. */
  function Work(stages: seq<Stage>, blackList: set<nat>, t: nat): nat
    requires t <= |stages|
    decreases |stages| - t
  {
    if t == |stages| then 0
    else
      (if stages[t].status.Resolved? then 2 else if HasTasks(stages[t]) && t !in blackList then 1 else 0) +
      Work(stages, blackList, t + 1)
  }

  lemma {:induction false} NothingOffered(job: nat, stages: seq<Stage>, blackList: set<nat>, t: nat)
    requires NoneBefore(stages, blackList, |stages|) && t <= |stages|
    ensures OfferedFrom(job, stages, blackList, t) == []
    decreases |stages| - t
  {
    if t < |stages| {
      NoTasks(job, t, stages[t].free);
      NothingOffered(job, stages, blackList, t + 1);
    }
  }

  /** Starting the stages that wait moves their tasks into the offer, and nothing waits any more. */
  lemma {:induction false} ReviveMoves(
    job: nat, stages: seq<Stage>, stages': seq<Stage>, blackList: set<nat>, t: nat)
    requires AllStarted(stages, stages') && NoneBefore(stages, blackList, |stages|) && t <= |stages|
    ensures OfferedFrom(job, stages', blackList, t) == WaitingFrom(job, stages, blackList, t)
    ensures WaitingFrom(job, stages', blackList, t) == []
    decreases |stages| - t
  {
    if t < |stages| {
      NoTasks(job, t, stages[t].free);
      ReviveMoves(job, stages, stages', blackList, t + 1);
    }
  }

  lemma {:induction false} ReviveIsWork(stages: seq<Stage>, stages': seq<Stage>, blackList: set<nat>, t: nat)
    requires AllStarted(stages, stages') && t <= |stages|
    ensures Work(stages', blackList, t) <= Work(stages, blackList, t)
    decreases |stages| - t
  {
    if t < |stages| {
      ReviveIsWork(stages, stages', blackList, t + 1);
    }
  }

  /** When no stage offers a task, starting those that wait keeps what is left to bind. */
  lemma ReviveKeepsTasks(job: nat, stages: seq<Stage>, stages': seq<Stage>, blackList: set<nat>)
    requires AllStarted(stages, stages') && NoneBefore(stages, blackList, |stages|)
    ensures TasksOfStages(job, stages', blackList) == TasksOfStages(job, stages, blackList)
    ensures NoneBefore(stages', blackList, |stages|) ==> TasksOfStages(job, stages, blackList) == []
  {
    NothingOffered(job, stages, blackList, 0);
    ReviveMoves(job, stages, stages', blackList, 0);
    if NoneBefore(stages', blackList, |stages|) {
      NothingOffered(job, stages', blackList, 0);
    }
  }

  /**
   The next stage to bind tasks of, waiting ones started if need be. The tasks left to bind and
   their order stay the same; if no stage is found, there are none left.
   */
  method FetchRunningStage(ghost job: nat, stages: seq<Stage>, blackList: set<nat>)
    returns (t: nat, stages': seq<Stage>)
    ensures AllProgressed(stages, stages')
    ensures TasksOfStages(job, stages', blackList) == TasksOfStages(job, stages, blackList)
    ensures Work(stages', blackList, 0) <= Work(stages, blackList, 0)
    ensures t == |stages| ==> TasksOfStages(job, stages, blackList) == []
    ensures NoneBefore(stages', blackList, t) && (t < |stages| ==> HasTasks(stages'[t]) && t !in blackList)
  {
    stages' := stages;
    t := FindAvailable(stages, blackList);
    if t == |stages| {
      var revived, any := Revive(stages);
      ReviveKeepsTasks(job, stages, revived, blackList);
      ReviveIsWork(stages, revived, blackList, 0);
      if any {
        stages' := revived;
        t := FindAvailable(stages', blackList);
      } else {
        assert revived == stages;
      }
    }
  }

  // ---------- Binding tasks of a stage ----------

  /** Binding the first free partition leaves the other tasks of the stage. */
  lemma {:induction false} FirstTaskBound(job: nat, stage: nat, free: seq<bool>)
    requires FreeTasks(job, stage, free) != []
    ensures var p := FreeTasks(job, stage, free)[0].partition;
            p < |free| && FreeTasks(job, stage, free[p := false]) == FreeTasks(job, stage, free)[1..]
  {
    var last := |free| - 1;
    var front := free[..last];
    if FreeTasks(job, stage, front) == [] {
      assert free[last := false][..last] == front;
    } else {
      FirstTaskBound(job, stage, front);
      var p := FreeTasks(job, stage, front)[0].partition;
      assert free[p := false][..last] == front[p := false];
    }
  }

  /** The first m tasks of the stage have been bound. */
  predicate FirstBound(job: nat, t: nat, free: seq<bool>, free': seq<bool>, m: nat) {
    && |free'| == |free| && m <= |FreeTasks(job, t, free)|
    && FreeTasks(job, t, free') == FreeTasks(job, t, free)[m..]
  }

  lemma {:induction false} SameOffer(
    job: nat, stages: seq<Stage>, stages': seq<Stage>, blackList: set<nat>, t: nat)
    requires |stages'| == |stages| && t <= |stages| && forall i :: t <= i < |stages| ==> stages'[i] == stages[i]
    ensures OfferedFrom(job, stages', blackList, t) == OfferedFrom(job, stages, blackList, t)
    decreases |stages| - t
  {
    if t < |stages| {
      SameOffer(job, stages, stages', blackList, t + 1);
    }
  }

  lemma {:induction false} SameWaiting(
    job: nat, stages: seq<Stage>, stages': seq<Stage>, blackList: set<nat>, t: nat)
    requires |stages'| == |stages| && t <= |stages|
    requires forall i :: 0 <= i < |stages| ==>
               stages'[i] == stages[i] || (stages[i].status.Running? && stages'[i].status.Running?)
    ensures WaitingFrom(job, stages', blackList, t) == WaitingFrom(job, stages, blackList, t)
    decreases |stages| - t
  {
    if t < |stages| {
      SameWaiting(job, stages, stages', blackList, t + 1);
    }
  }

  lemma OfferedByFound(job: nat, stages: seq<Stage>, blackList: set<nat>, t: nat, free: seq<bool>, m: nat)
    requires t < |stages| && stages[t].status.Running? && Admitted(t, stages[t], blackList)
    requires FirstBound(job, t, stages[t].free, free, m)
    ensures OfferedFrom(job, stages, blackList, t) ==
            FreeTasks(job, t, stages[t].free)[..m] +
            OfferedFrom(job, stages[t := stages[t].(free := free)], blackList, t)
  {
    var stages' := stages[t := stages[t].(free := free)];
    var tasks := FreeTasks(job, t, stages[t].free);
    SameOffer(job, stages, stages', blackList, t + 1);
    FirstAndRest(tasks, m, OfferedFrom(job, stages, blackList, t + 1));
  }

  lemma FirstAndRest(tasks: seq<Task>, m: nat, more: seq<Task>)
    requires m <= |tasks|
    ensures tasks + more == tasks[..m] + (tasks[m..] + more)
  {}

  lemma NotOffered(job: nat, stages: seq<Stage>, blackList: set<nat>, i: nat)
    requires i < |stages| && (!HasTasks(stages[i]) || i in blackList)
    ensures OfferedFrom(job, stages, blackList, i) == OfferedFrom(job, stages, blackList, i + 1)
  {
    NoTasks(job, i, stages[i].free);
    assert Offered(job, i, stages[i], blackList) == [];
    assert [] + OfferedFrom(job, stages, blackList, i + 1) == OfferedFrom(job, stages, blackList, i + 1);
  }

  lemma {:induction false} FirstOffered(
    job: nat, stages: seq<Stage>, blackList: set<nat>, t: nat, free: seq<bool>, m: nat, i: nat)
    requires i <= t < |stages| && stages[t].status.Running? && Admitted(t, stages[t], blackList)
    requires FirstBound(job, t, stages[t].free, free, m) && NoneBefore(stages, blackList, t)
    ensures OfferedFrom(job, stages, blackList, i) ==
            FreeTasks(job, t, stages[t].free)[..m] +
            OfferedFrom(job, stages[t := stages[t].(free := free)], blackList, i)
    decreases t - i
  {
    if i == t {
      OfferedByFound(job, stages, blackList, t, free, m);
    } else {
      FirstOffered(job, stages, blackList, t, free, m, i + 1);
      NotOffered(job, stages, blackList, i);
      NotOffered(job, stages[t := stages[t].(free := free)], blackList, i);
    }
  }

  /** The tasks of the stage that was found come first; when some are bound, the others are left. */
  lemma FirstTasks(job: nat, stages: seq<Stage>, blackList: set<nat>, t: nat, free: seq<bool>, m: nat)
    requires t < |stages| && stages[t].status.Running? && Admitted(t, stages[t], blackList)
    requires FirstBound(job, t, stages[t].free, free, m) && NoneBefore(stages, blackList, t)
    ensures TasksOfStages(job, stages, blackList) ==
            FreeTasks(job, t, stages[t].free)[..m] +
            TasksOfStages(job, stages[t := stages[t].(free := free)], blackList)
  {
    var stages' := stages[t := stages[t].(free := free)];
    FirstOffered(job, stages, blackList, t, free, m, 0);
    SameWaiting(job, stages, stages', blackList, 0);
    var bound := FreeTasks(job, t, stages[t].free)[..m];
    var offered, waiting := OfferedFrom(job, stages', blackList, 0), WaitingFrom(job, stages', blackList, 0);
    assert (bound + offered) + waiting == bound + (offered + waiting);
  }

  /** A stage that is filtered out has nothing on offer, on the black list or not. */
  lemma {:induction false} BlackListSkipped(job: nat, stages: seq<Stage>, blackList: set<nat>, i: nat)
    requires OnlySkipped(stages, blackList) && i <= |stages|
    ensures OfferedFrom(job, stages, blackList, i) == OfferedFrom(job, stages, {}, i)
    ensures WaitingFrom(job, stages, blackList, i) == WaitingFrom(job, stages, {}, i)
    decreases |stages| - i
  {
    if i < |stages| {
      BlackListSkipped(job, stages, blackList, i + 1);
    }
  }

  predicate OnlySkipped(stages: seq<Stage>, blackList: set<nat>) {
    forall t :: t in blackList ==> t < |stages| && stages[t].skip
  }

  /** One stage less to do, by binding its tasks or by blacklisting it. */
  lemma {:induction false} LessWork(stages: seq<Stage>, blackList: set<nat>, t: nat, stage: Stage, i: nat)
    requires t < |stages| && HasTasks(stages[t]) && t !in blackList && i <= |stages|
    requires !HasTasks(stage) && !stage.status.Resolved?
    ensures var less := if i <= t then 1 else 0;
            && Work(stages[t := stage], blackList, i) == Work(stages, blackList, i) - less
            && Work(stages, blackList + {t}, i) == Work(stages, blackList, i) - less
    decreases |stages| - i
  {
    if i < |stages| {
      LessWork(stages, blackList, t, stage, i + 1);
    }
  }
}
