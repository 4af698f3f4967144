/**
 Binding runnable tasks to free executor slots, round robin: the tasks are spread evenly over the
 executors.
 */
module SlotBinding {
  import opened StageFetching
  import opened TaskSlots

  datatype Job = Job(running: bool, stages: seq<Stage>)

  // ---------- The tasks on offer ----------

  function TasksOfJob(job: nat, j: Job): seq<Task> {
    if j.running then TasksOfStages(job, j.stages, {}) else []
  }

  function TasksOfJobs(jobs: seq<Job>): seq<seq<Task>> {
    seq(|jobs|, j requires 0 <= j < |jobs| => TasksOfJob(j, jobs[j]))
  }

  /** Every task that can be bound, job by job; those of running stages before those of waiting ones. */
  function Runnable(jobs: seq<Job>): seq<Task> {
    Flatten(TasksOfJobs(jobs))
  }

  function Flatten(lists: seq<seq<Task>>): seq<Task> {
    if lists == [] then [] else Flatten(lists[..|lists| - 1]) + lists[|lists| - 1]
  }

  /** A free partition of an admitted stage, running or waiting, of a running job. */
  predicate Bindable(jobs: seq<Job>, x: Task) {
    && x.job < |jobs| && jobs[x.job].running
    && (Ready(jobs[x.job].stages, {}, x) || Pending(jobs[x.job].stages, {}, x))
  }

  /** Job by job, and within a job as its stages are fetched. */
  predicate Earlier(jobs: seq<Job>, x: Task, y: Task) {
    x.job < y.job || (x.job == y.job < |jobs| && Precedes(jobs[x.job].stages, {}, x, y))
  }

  predicate InOrder(jobs: seq<Job>, tasks: seq<Task>) {
    forall i, j :: 0 <= i < j < |tasks| ==> Earlier(jobs, tasks[i], tasks[j])
  }

  lemma NotEarlierThanItself(jobs: seq<Job>, x: Task)
    ensures !Earlier(jobs, x, x)
  {}

  lemma TasksOfJobAre(jobs: seq<Job>, j: nat)
    requires j < |jobs|
    ensures forall x :: x in TasksOfJob(j, jobs[j]) <==> x.job == j && Bindable(jobs, x)
    ensures InOrder(jobs, TasksOfJob(j, jobs[j]))
  {
    TasksOfStagesAre(j, jobs[j].stages, {});
    var tasks := TasksOfJob(j, jobs[j]);
    forall i, k | 0 <= i < k < |tasks| ensures Earlier(jobs, tasks[i], tasks[k]) {
      assert tasks[i] in tasks && tasks[k] in tasks;
    }
  }

  lemma InOrderConcat(jobs: seq<Job>, a: seq<Task>, b: seq<Task>)
    requires InOrder(jobs, a) && InOrder(jobs, b)
    requires forall x, y :: x in a && y in b ==> x.job < y.job
    ensures InOrder(jobs, a + b)
  {
    var all := a + b;
    forall i, j | 0 <= i < j < |all| ensures Earlier(jobs, all[i], all[j]) {
      if i < |a| <= j {
        assert all[i] in a && all[j] in b;
      }
    }
  }

  lemma {:induction false} FirstTasksAre(jobs: seq<Job>, n: nat)
    requires n <= |jobs|
    ensures var tasks := Flatten(TasksOfJobs(jobs)[..n]);
            InOrder(jobs, tasks) && forall x :: x in tasks <==> x.job < n && Bindable(jobs, x)
  {
    if n > 0 {
      var lists := TasksOfJobs(jobs);
      FirstTasksAre(jobs, n - 1);
      TasksOfJobAre(jobs, n - 1);
      assert lists[..n][..n - 1] == lists[..n - 1];
      InOrderConcat(jobs, Flatten(lists[..n - 1]), lists[n - 1]);
    }
  }

  /** The runnable tasks are exactly the bindable ones, in order. */
  lemma RunnableAre(jobs: seq<Job>)
    ensures InOrder(jobs, Runnable(jobs))
    ensures forall x :: x in Runnable(jobs) <==> Bindable(jobs, x)
  {
    FirstTasksAre(jobs, |jobs|);
    assert TasksOfJobs(jobs)[..|jobs|] == TasksOfJobs(jobs);
  }

  /** The tasks stand in the list at position n. */
  predicate Stands(all: seq<Task>, n: nat, tasks: seq<Task>) {
    n + |tasks| <= |all| && all[n..n + |tasks|] == tasks
  }

  lemma PartsStand(all: seq<Task>, n: nat, a: seq<Task>, b: seq<Task>)
    requires Stands(all, n, a + b)
    ensures Stands(all, n, a) && Stands(all, n + |a|, b)
  {
    assert a == (a + b)[..|a|] && b == (a + b)[|a|..];
    assert all[n..n + |a|] == all[n..n + |a + b|][..|a|];
    assert all[n + |a|..n + |a| + |b|] == all[n..n + |a + b|][|a|..];
  }

  /** The tasks of each list follow those of the lists before it. */
  lemma {:induction false} ListStands(all: seq<Task>, n: nat, lists: seq<seq<Task>>, i: nat)
    requires i < |lists| && Stands(all, n, Flatten(lists))
    ensures var before := |Flatten(lists[..i])|;
            && Stands(all, n + before, lists[i])
            && |Flatten(lists[..i + 1])| == before + |lists[i]| <= |Flatten(lists)|
  {
    var last := |lists| - 1;
    PartsStand(all, n, Flatten(lists[..last]), lists[last]);
    if i < last {
      ListStands(all, n, lists[..last], i);
      assert lists[..last][..i] == lists[..i] && lists[..last][..i + 1] == lists[..i + 1];
    } else {
      assert lists[..i + 1] == lists;
    }
  }

  // ---------- Slots ----------

  function Sum(slots: Record): nat {
    if slots == [] then 0 else Sum(slots[..|slots| - 1]) + slots[|slots| - 1].slots
  }

  predicate Descending(slots: Record) {
    forall i, j :: 0 <= i < j < |slots| ==> slots[i].slots >= slots[j].slots
  }

  /** How many executors at the front have at least as many slots. */
  function Position(slots: Record, n: nat): (p: nat)
    ensures p <= |slots|
    ensures forall i :: 0 <= i < p ==> slots[i].slots >= n
    ensures p < |slots| ==> slots[p].slots < n
  {
    if slots == [] || slots[0].slots < n then 0 else 1 + Position(slots[1..], n)
  }

  function Insert(slots: Record, x: ExecutorSlots): Record {
    var p := Position(slots, x.slots);
    slots[..p] + [x] + slots[p..]
  }

  lemma InsertPermutes(slots: Record, x: ExecutorSlots)
    ensures multiset(Insert(slots, x)) == multiset(slots) + multiset{x}
  {
    var p := Position(slots, x.slots);
    assert slots == slots[..p] + slots[p..];
  }

  lemma InsertAt(slots: Record, x: ExecutorSlots, i: nat)
    requires i <= |slots|
    ensures |Insert(slots, x)| == |slots| + 1
    ensures var p := Position(slots, x.slots);
            Insert(slots, x)[i] == if i < p then slots[i] else if i == p then x else slots[i - 1]
  {}

  lemma InsertKeepsDescending(slots: Record, x: ExecutorSlots)
    requires Descending(slots)
    ensures Descending(Insert(slots, x))
  {
    var p, r := Position(slots, x.slots), Insert(slots, x);
    forall i, j | 0 <= i < j < |r| ensures r[i].slots >= r[j].slots {
      InsertAt(slots, x, i);
      InsertAt(slots, x, j);
      assert p < j ==> slots[p].slots >= slots[j - 1].slots;
    }
  }

  /** The executors with the most slots first. */
  function Sorted(slots: Record): Record {
    if slots == [] then [] else Insert(Sorted(slots[..|slots| - 1]), slots[|slots| - 1])
  }

  lemma {:induction false} SortedIsSorted(slots: Record)
    ensures Descending(Sorted(slots))
    ensures multiset(Sorted(slots)) == multiset(slots)
  {
    if slots != [] {
      var front, x := slots[..|slots| - 1], slots[|slots| - 1];
      SortedIsSorted(front);
      InsertPermutes(Sorted(front), x);
      InsertKeepsDescending(Sorted(front), x);
      assert slots == front + [x];
    }
  }

  lemma {:induction false} SumOfConcat(a: Record, b: Record)
    ensures Sum(a + b) == Sum(a) + Sum(b)
  {
    if b == [] {
      assert a + b == a;
    } else {
      assert (a + b)[..|a + b| - 1] == a + b[..|b| - 1];
      SumOfConcat(a, b[..|b| - 1]);
    }
  }

  lemma SumOfInsert(slots: Record, x: ExecutorSlots)
    ensures Sum(Insert(slots, x)) == Sum(slots) + x.slots
  {
    var p := Position(slots, x.slots);
    var front, back := slots[..p], slots[p..];
    SumOfConcat(front + [x], back);
    SumOfConcat(front, back);
    assert front + back == slots;
    assert (front + [x])[..p] == front;
  }

  lemma {:induction false} SumOfSorted(slots: Record)
    ensures Sum(Sorted(slots)) == Sum(slots)
  {
    if slots != [] {
      SumOfSorted(slots[..|slots| - 1]);
      SumOfInsert(Sorted(slots[..|slots| - 1]), slots[|slots| - 1]);
    }
  }

  function Take(slots: Record, i: nat): Record
    requires i < |slots| && slots[i].slots > 0
  {
    slots[i := slots[i].(slots := slots[i].slots - 1)]
  }

  lemma {:induction false} SumOfTake(slots: Record, i: nat)
    requires i < |slots| && slots[i].slots > 0
    ensures Sum(Take(slots, i)) == Sum(slots) - 1
  {
    var last := |slots| - 1;
    if i == last {
      assert Take(slots, i)[..last] == slots[..last];
    } else {
      assert Take(slots, i)[..last] == Take(slots[..last], i);
      SumOfTake(slots[..last], i);
    }
  }

  lemma {:induction false} SumIsZeroIff(slots: Record)
    ensures Sum(slots) == 0 <==> forall i :: 0 <= i < |slots| ==> slots[i].slots == 0
  {
    if slots != [] {
      var last := |slots| - 1;
      SumIsZeroIff(slots[..last]);
      assert forall i :: 0 <= i < last ==> slots[..last][i] == slots[i];
    }
  }

  function Count(chosen: seq<nat>, i: nat): nat {
    if chosen == [] then 0
    else Count(chosen[..|chosen| - 1], i) + if chosen[|chosen| - 1] == i then 1 else 0
  }

  /** Every task was given a slot that was free: what is left and what was taken make up what there was. */
  predicate Conserved(slots: Record, left: Record, chosen: seq<nat>) {
    && |left| == |slots|
    && (forall i :: 0 <= i < |slots| ==> left[i].executorId == slots[i].executorId)
    && (forall i :: 0 <= i < |slots| ==> left[i].slots + Count(chosen, i) == slots[i].slots)
    && (forall k :: 0 <= k < |chosen| ==> chosen[k] < |slots|)
  }

  lemma ConservedByTake(slots: Record, left: Record, chosen: seq<nat>, i: nat)
    requires Conserved(slots, left, chosen) && i < |slots| && left[i].slots > 0
    ensures Conserved(slots, Take(left, i), chosen + [i])
  {
    assert (chosen + [i])[..|chosen|] == chosen;
  }

  // ---------- Round robin ----------

  function Min(a: nat, b: nat): nat { if a < b then a else b }

  /** Everyone has been served round times, those before next once more, as far as their slots last. */
  predicate Levelled(slots: Record, left: Record, next: nat, round: nat) {
    && |left| == |slots| && next <= |slots|
    && forall i :: 0 <= i < |slots| ==>
         left[i].slots == slots[i].slots - Min(slots[i].slots, if i < next then round + 1 else round)
  }

  /** The executor that gets the next task. */
  function NextExecutor(left: Record, next: nat): (i: nat)
    requires left != []
    ensures i < |left|
  {
    if next >= |left| || left[next].slots == 0 then 0 else next
  }

  lemma RoundEnds(slots: Record, left: Record, next: nat, round: nat)
    requires Descending(slots) && Levelled(slots, left, next, round)
    requires next < |left| ==> left[next].slots == 0
    ensures Levelled(slots, left, 0, round + 1)
  {
  }

  lemma FirstHasSlots(slots: Record, left: Record, round: nat)
    requires Descending(slots) && Levelled(slots, left, 0, round) && Sum(left) > 0
    ensures left[0].slots > 0
  {
    SumIsZeroIff(left);
    var some :| 0 <= some < |left| && left[some].slots > 0;
    assert slots[0].slots >= slots[some].slots;
  }

  /** As long as slots are left, the next executor has one, and serving it keeps everyone level. */
  lemma LevelledByTake(slots: Record, left: Record, next: nat, round: nat) returns (round': nat)
    requires Descending(slots) && Levelled(slots, left, next, round) && Sum(left) > 0
    ensures left[NextExecutor(left, next)].slots > 0
    ensures Levelled(slots, Take(left, NextExecutor(left, next)), NextExecutor(left, next) + 1, round')
  {
    round' := round;
    if next >= |left| || left[next].slots == 0 {
      RoundEnds(slots, left, next, round);
      round' := round + 1;
      FirstHasSlots(slots, left, round');
    }
  }

  /** Nobody gets two tasks more than somebody who still has a slot left. */
  predicate Even(left: Record, chosen: seq<nat>) {
    forall i, j :: 0 <= i < |left| && 0 <= j < |left| && Count(chosen, i) > Count(chosen, j) + 1 ==>
                     left[j].slots == 0
  }

  lemma LevelledIsEven(slots: Record, left: Record, next: nat, round: nat, chosen: seq<nat>)
    requires Conserved(slots, left, chosen) && Levelled(slots, left, next, round)
    ensures Even(left, chosen)
  {
  }

  /** Where binding stands; chosen lists the executors that got a task, oldest first. */
  datatype Deal = Deal(left: Record, next: nat, chosen: seq<nat>, bound: seq<(string, Task)>)

  function Given(d: Deal, i: nat, task: Task): Deal
    requires i < |d.left| && d.left[i].slots > 0
  {
    Deal(Take(d.left, i), i + 1, d.chosen + [i], d.bound + [(d.left[i].executorId, task)])
  }

  predicate HasNext(d: Deal) {
    d.left != [] && d.left[NextExecutor(d.left, d.next)].slots > 0
  }

  function Dealt(slots: Record, tasks: seq<Task>): Deal {
    if tasks == [] then Deal(slots, 0, [], [])
    else
      var last := |tasks| - 1;
      var d := Dealt(slots, tasks[..last]);
      if HasNext(d) then Given(d, NextExecutor(d.left, d.next), tasks[last]) else d
  }

  /** As many tasks as there are slots can be dealt out, and at every moment everyone is level. */
  lemma {:induction false} DealtIsLevelled(slots: Record, tasks: seq<Task>) returns (round: nat)
    requires Descending(slots) && |tasks| <= Sum(slots)
    ensures var d := Dealt(slots, tasks);
            && Levelled(slots, d.left, d.next, round) && Conserved(slots, d.left, d.chosen)
            && |d.chosen| == |tasks| && Sum(d.left) == Sum(slots) - |tasks|
  {
    round := 0;
    if tasks != [] {
      var d := Dealt(slots, tasks[..|tasks| - 1]);
      round := DealtIsLevelled(slots, tasks[..|tasks| - 1]);
      round := LevelledByTake(slots, d.left, d.next, round);
      var i := NextExecutor(d.left, d.next);
      SumOfTake(d.left, i);
      ConservedByTake(slots, d.left, d.chosen, i);
    }
  }

  lemma AlwaysHasNext(slots: Record, tasks: seq<Task>)
    requires Descending(slots) && |tasks| < Sum(slots)
    ensures HasNext(Dealt(slots, tasks))
  {
    var d := Dealt(slots, tasks);
    var round := DealtIsLevelled(slots, tasks);
    round := LevelledByTake(slots, d.left, d.next, round);
  }

  lemma DealtConserves(slots: Record, tasks: seq<Task>)
    requires Descending(slots) && |tasks| <= Sum(slots)
    ensures Conserved(slots, Dealt(slots, tasks).left, Dealt(slots, tasks).chosen)
  {
    var _ := DealtIsLevelled(slots, tasks);
  }

  /** The k-th task is bound to the k-th chosen executor. */
  predicate Assigned(slots: Record, tasks: seq<Task>, chosen: seq<nat>, bound: seq<(string, Task)>) {
    && |bound| == |chosen| == |tasks|
    && forall k :: 0 <= k < |bound| ==>
         chosen[k] < |slots| && bound[k] == (slots[chosen[k]].executorId, tasks[k])
  }

  lemma {:induction false} DealtIsAssigned(slots: Record, tasks: seq<Task>)
    requires Descending(slots) && |tasks| <= Sum(slots)
    ensures Assigned(slots, tasks, Dealt(slots, tasks).chosen, Dealt(slots, tasks).bound)
  {
    if tasks != [] {
      var front := tasks[..|tasks| - 1];
      DealtIsAssigned(slots, front);
      AlwaysHasNext(slots, front);
      DealtConserves(slots, front);
    }
  }

  /**
   Round robin binds the tasks in order to slots that are free, and evenly: nobody gets two tasks
   more than somebody who still has a slot left.
   */
  lemma RoundRobinIsFair(slots: Record, tasks: seq<Task>)
    requires Descending(slots) && |tasks| <= Sum(slots)
    ensures var d := Dealt(slots, tasks);
            Assigned(slots, tasks, d.chosen, d.bound) && Conserved(slots, d.left, d.chosen) && Even(d.left, d.chosen)
  {
    var d := Dealt(slots, tasks);
    var round := DealtIsLevelled(slots, tasks);
    LevelledIsEven(slots, d.left, d.next, round, d.chosen);
    DealtIsAssigned(slots, tasks);
  }

  /** The first n tasks have been dealt out and total slots are left. */
  ghost predicate Reached(slots: Record, all: seq<Task>, n: nat, d: Deal, total: nat) {
    n <= |all| && n + total == Sum(slots) && d == Dealt(slots, all[..n])
  }

  /** The next task goes to the next executor, which has a slot. */
  lemma OneDealt(slots: Record, all: seq<Task>, n: nat, d: Deal, total: nat)
    requires Descending(slots) && Reached(slots, all, n, d, total) && n < |all| && total > 0
    ensures HasNext(d) && Reached(slots, all, n + 1, Given(d, NextExecutor(d.left, d.next), all[n]), total - 1)
  {
    AlwaysHasNext(slots, all[..n]);
    assert all[..n + 1][..n] == all[..n];
  }

  /** The first k tasks of a stage have been bound. */
  ghost predicate StageReached(
    slots: Record, all: seq<Task>, n: nat, k: nat, j: nat, t: nat, free0: seq<bool>, free: seq<bool>, d: Deal,
    total: nat)
  {
    var tasks := FreeTasks(j, t, free0);
    && k <= |tasks| && Stands(all, n, tasks) && Reached(slots, all, n + k, d, total)
    && |free| == |free0| && FreeTasks(j, t, free) == tasks[k..]
  }

  lemma OneBound(
    slots: Record, all: seq<Task>, n: nat, k: nat, j: nat, t: nat, free0: seq<bool>, free: seq<bool>, d: Deal,
    total: nat)
    requires Descending(slots) && StageReached(slots, all, n, k, j, t, free0, free, d, total)
    requires k < |FreeTasks(j, t, free0)| && total > 0
    ensures HasNext(d)
    ensures var x := FreeTasks(j, t, free0)[k];
            && x.partition < |free|
            && StageReached(slots, all, n, k + 1, j, t, free0, free[x.partition := false],
                            Given(d, NextExecutor(d.left, d.next), x), total - 1)
  {
    var tasks := FreeTasks(j, t, free0);
    assert tasks[k] == all[n..n + |tasks|][k];
    OneDealt(slots, all, n + k, d, total);
    FirstTaskBound(j, t, free);
  }

  /** Binds tasks of one stage, one after the other, as long as there are slots. */
  method DealStage(
    ghost slots: Record, ghost all: seq<Task>, ghost n: nat, d0: Deal, total0: nat, j: nat, t: nat, free0: seq<bool>)
    returns (d: Deal, total: nat, free: seq<bool>, ghost end: nat)
    requires Descending(slots) && Stands(all, n, FreeTasks(j, t, free0))
    requires Reached(slots, all, n, d0, total0)
    ensures n <= end && FirstBound(j, t, free0, free, end - n) && Reached(slots, all, end, d, total)
    ensures total == 0 || FreeTasks(j, t, free) == []
  {
    var tasks := FreeTasks(j, t, free0);
    var runnable := Min(total0, |tasks|);
    d, total, free := d0, total0, free0;
    for k := 0 to runnable
      invariant StageReached(slots, all, n, k, j, t, free0, free, d, total) && total == total0 - k
    {
      OneBound(slots, all, n, k, j, t, free0, free, d, total);
      var i := if d.next >= |d.left| then 0 else d.next;
      if d.left[i].slots == 0 {
        i := 0;
      }
      d, total := Given(d, i, tasks[k]), total - 1;
      free := free[tasks[k].partition := false];
    }
    end := n + runnable;
  }

  /** The state of binding the tasks of a job, between two stages. */
  ghost predicate JobReached(
    slots: Record, all: seq<Task>, n: nat, j: nat, stages0: seq<Stage>, end: nat, stages: seq<Stage>, d: Deal,
    total: nat)
  {
    && Reached(slots, all, end, d, total) && AllProgressed(stages0, stages)
    && Leaves(all, n, j, stages0, end, stages)
  }

  /** Stage t is the first one with tasks to bind, and admitted. */
  predicate FetchedAt(stages: seq<Stage>, blackList: set<nat>, t: nat) {
    && t < |stages| && HasTasks(stages[t]) && Admitted(t, stages[t], blackList)
    && NoneBefore(stages, blackList, t) && OnlySkipped(stages, blackList)
  }

  lemma FetchedStands(
    slots: Record, all: seq<Task>, n: nat, j: nat, stages0: seq<Stage>, end: nat, stages: seq<Stage>, d: Deal,
    total: nat, blackList: set<nat>, t: nat)
    requires JobReached(slots, all, n, j, stages0, end, stages, d, total) && FetchedAt(stages, blackList, t)
    ensures Stands(all, end, FreeTasks(j, t, stages[t].free)) && Reached(slots, all, end, d, total)
  {
    BlackListSkipped(j, stages, blackList, 0);
    PartOfJobStands(all, end, j, stages, blackList, t);
  }

  lemma FetchedIsDealt(
    slots: Record, all: seq<Task>, n: nat, j: nat, stages0: seq<Stage>, end: nat, stages: seq<Stage>, d0: Deal,
    total0: nat, blackList: set<nat>, t: nat, free: seq<bool>, end': nat, stages': seq<Stage>, d: Deal, total: nat)
    requires JobReached(slots, all, n, j, stages0, end, stages, d0, total0) && FetchedAt(stages, blackList, t)
    requires end <= end' && FirstBound(j, t, stages[t].free, free, end' - end) && Reached(slots, all, end', d, total)
    requires stages' == stages[t := stages[t].(free := free)] && (total == 0 || FreeTasks(j, t, free) == [])
    ensures JobReached(slots, all, n, j, stages0, end', stages', d, total) && OnlySkipped(stages', blackList)
    ensures total == 0 || Work(stages', blackList, 0) < Work(stages, blackList, 0)
  {
    PartOfJobBound(all, n, j, stages0, end, stages, blackList, t, free, end' - end);
    ProgressedOn(stages0, stages, stages');
    if total > 0 {
      NoTasks(j, t, free);
      LessWork(stages, blackList, t, stages'[t], 0);
    }
  }

  lemma FetchedKeeps(
    slots: Record, all: seq<Task>, n: nat, j: nat, stages0: seq<Stage>, end: nat, before: seq<Stage>,
    blackList: set<nat>, stages: seq<Stage>, d: Deal, total: nat)
    requires JobReached(slots, all, n, j, stages0, end, before, d, total) && OnlySkipped(before, blackList)
    requires AllProgressed(before, stages)
    requires TasksOfStages(j, stages, blackList) == TasksOfStages(j, before, blackList)
    ensures JobReached(slots, all, n, j, stages0, end, stages, d, total) && OnlySkipped(stages, blackList)
    ensures TasksOfStages(j, stages, blackList) == TasksOfStages(j, stages, {})
  {
    ProgressedOn(stages0, before, stages);
    forall t | t in blackList ensures t < |stages| && stages[t].skip {
      assert Progressed(before[t], stages[t]);
    }
    BlackListSkipped(j, before, blackList, 0);
    BlackListSkipped(j, stages, blackList, 0);
  }

  /** One running job: fetches stage after stage, starting those that wait when the running ones are done. */
  method DealJob(
    ghost slots: Record, ghost all: seq<Task>, ghost n: nat, d0: Deal, total0: nat, j: nat, stages0: seq<Stage>)
    returns (d: Deal, total: nat, stages: seq<Stage>, ghost end: nat)
    requires Descending(slots) && Stands(all, n, TasksOfStages(j, stages0, {})) && total0 > 0
    requires Reached(slots, all, n, d0, total0)
    ensures JobReached(slots, all, n, j, stages0, end, stages, d, total)
    ensures total == 0 || TasksOfStages(j, stages, {}) == []
  {
    d, total, end := d0, total0, n;
    stages := stages0;
    var blackList := {};
    while true
      invariant JobReached(slots, all, n, j, stages0, end, stages, d, total)
      invariant OnlySkipped(stages, blackList) && total > 0
      decreases Work(stages, blackList, 0)
    {
      ghost var before := stages;
      var t;
      t, stages := FetchRunningStage(j, stages, blackList);
      FetchedKeeps(slots, all, n, j, stages0, end, before, blackList, stages, d, total);
      if t == |stages| {
        return;
      }
      if stages[t].skip {
        LessWork(stages, blackList, t, stages[t].(free := []), 0);
        blackList := blackList + {t};
      } else {
        FetchedStands(slots, all, n, j, stages0, end, stages, d, total, blackList, t);
        ghost var d', total', fetched, end' := d, total, stages, end;
        var free;
        d, total, free, end := DealStage(slots, all, end, d, total, j, t, stages[t].free);
        stages := stages[t := stages[t].(free := free)];
        FetchedIsDealt(
          slots, all, n, j, stages0, end', fetched, d', total', blackList, t, free, end, stages, d, total);
        if total == 0 {
          return;
        }
      }
    }
  }

  /** From n to end the tasks of the job have been bound; those of the stages as they are now are left. */
  predicate Leaves(all: seq<Task>, n: nat, j: nat, stages0: seq<Stage>, end: nat, stages: seq<Stage>) {
    var tasks, left := TasksOfStages(j, stages0, {}), TasksOfStages(j, stages, {});
    && Stands(all, n, tasks) && Stands(all, end, left)
    && n <= end && end + |left| == n + |tasks|
  }

  /** The tasks of the fetched stage are next. */
  lemma PartOfJobStands(all: seq<Task>, end: nat, j: nat, stages: seq<Stage>, blackList: set<nat>, t: nat)
    requires Stands(all, end, TasksOfStages(j, stages, blackList))
    requires t < |stages| && HasTasks(stages[t]) && Admitted(t, stages[t], blackList)
    requires NoneBefore(stages, blackList, t)
    ensures Stands(all, end, FreeTasks(j, t, stages[t].free))
  {
    var free := NoneFree(|stages[t].free|);
    var tasks := FreeTasks(j, t, stages[t].free);
    NoTasks(j, t, free);
    FirstTasks(j, stages, blackList, t, free, |tasks|);
    assert tasks[..|tasks|] == tasks;
    PartsStand(all, end, tasks, TasksOfStages(j, stages[t := stages[t].(free := free)], blackList));
  }

  lemma PartOfJobBound(
    all: seq<Task>, n: nat, j: nat, stages0: seq<Stage>, end: nat, stages: seq<Stage>, blackList: set<nat>, t: nat,
    free: seq<bool>, m: nat)
    requires Leaves(all, n, j, stages0, end, stages) && OnlySkipped(stages, blackList)
    requires t < |stages| && HasTasks(stages[t]) && Admitted(t, stages[t], blackList)
    requires NoneBefore(stages, blackList, t) && FirstBound(j, t, stages[t].free, free, m)
    ensures Leaves(all, n, j, stages0, end + m, stages[t := stages[t].(free := free)])
  {
    var stages' := stages[t := stages[t].(free := free)];
    FirstTasks(j, stages, blackList, t, free, m);
    BlackListSkipped(j, stages, blackList, 0);
    BlackListSkipped(j, stages', blackList, 0);
    PartsStand(all, end, FreeTasks(j, t, stages[t].free)[..m], TasksOfStages(j, stages', {}));
  }

  // ---------- All jobs ----------

  predicate JobsProgressed(jobs0: seq<Job>, jobs: seq<Job>) {
    && |jobs| == |jobs0|
    && forall i :: 0 <= i < |jobs| ==>
         jobs[i].running == jobs0[i].running && AllProgressed(jobs0[i].stages, jobs[i].stages)
  }

  /** All tasks of the jobs before j are bound, those of later jobs are not. */
  predicate DoneUpto(jobs0: seq<Job>, jobs: seq<Job>, j: nat) {
    && |jobs| == |jobs0|
    && (forall i :: 0 <= i < j && i < |jobs| ==> TasksOfJob(i, jobs[i]) == [])
    && (forall i :: j <= i < |jobs| ==> jobs[i] == jobs0[i])
  }

  lemma {:induction false} FlattenEmpty(lists: seq<seq<Task>>)
    requires forall i :: 0 <= i < |lists| ==> lists[i] == []
    ensures Flatten(lists) == []
  {
    if lists != [] {
      FlattenEmpty(lists[..|lists| - 1]);
    }
  }

  /** Emptying the lists before j and cutting m tasks off list j leaves the rest. */
  lemma {:induction false} FlattenLeft(lists0: seq<seq<Task>>, lists: seq<seq<Task>>, j: nat, m: nat)
    requires |lists| == |lists0| && j < |lists| && m <= |lists0[j]|
    requires forall i :: 0 <= i < j ==> lists[i] == []
    requires lists[j] == lists0[j][m..]
    requires forall i :: j < i < |lists| ==> lists[i] == lists0[i]
    ensures |Flatten(lists0[..j])| + m <= |Flatten(lists0)|
    ensures Flatten(lists) == Flatten(lists0)[|Flatten(lists0[..j])| + m..]
  {
    var last := |lists| - 1;
    if j == last {
      FlattenEmpty(lists[..j]);
    } else {
      FlattenLeft(lists0[..last], lists[..last], j, m);
      assert lists0[..last][..j] == lists0[..j];
    }
  }

  lemma RunnableLeft(jobs0: seq<Job>, jobs: seq<Job>, j: nat, m: nat)
    requires j < |jobs| == |jobs0| && DoneUpto(jobs0, jobs[j := jobs0[j]], j)
    requires m <= |TasksOfJob(j, jobs0[j])| && TasksOfJob(j, jobs[j]) == TasksOfJob(j, jobs0[j])[m..]
    ensures var c := |Flatten(TasksOfJobs(jobs0)[..j])| + m;
            c <= |Runnable(jobs0)| && Runnable(jobs) == Runnable(jobs0)[c..]
  {
    var others := jobs[j := jobs0[j]];
    forall i | 0 <= i < j ensures TasksOfJob(i, jobs[i]) == [] {
      assert others[i] == jobs[i];
    }
    forall i | j < i < |jobs| ensures jobs[i] == jobs0[i] {
      assert others[i] == jobs[i];
    }
    FlattenLeft(TasksOfJobs(jobs0), TasksOfJobs(jobs), j, m);
  }

  lemma NothingLeft(jobs0: seq<Job>, jobs: seq<Job>)
    requires DoneUpto(jobs0, jobs, |jobs0|)
    ensures Runnable(jobs) == []
  {
    FlattenEmpty(TasksOfJobs(jobs));
  }

  /** Binding stands between jobs j - 1 and j. */
  ghost predicate JobsReached(
    sorted: Record, jobs0: seq<Job>, j: nat, jobs: seq<Job>, end: nat, d: Deal, total: nat)
  {
    && j <= |jobs0| && end == |Flatten(TasksOfJobs(jobs0)[..j])|
    && Reached(sorted, Runnable(jobs0), end, d, total)
    && DoneUpto(jobs0, jobs, j) && JobsProgressed(jobs0, jobs)
  }

  /** Binds tasks of job j. */
  method DealNextJob(
    ghost sorted: Record, ghost jobs0: seq<Job>, j: nat, before: seq<Job>, ghost end0: nat, d0: Deal, total0: nat)
    returns (d: Deal, total: nat, jobs: seq<Job>, ghost end: nat)
    requires Descending(sorted) && JobsReached(sorted, jobs0, j, before, end0, d0, total0) && total0 > 0
    requires j < |before|
    ensures Reached(sorted, Runnable(jobs0), end, d, total) && JobsProgressed(jobs0, jobs)
    ensures total == 0 ==> Runnable(jobs) == Runnable(jobs0)[end..]
    ensures total > 0 ==> JobsReached(sorted, jobs0, j + 1, jobs, end, d, total)
  {
    if before[j].running {
      NextJobStands(jobs0, j, before);
      var stages;
      d, total, stages, end := DealJob(sorted, Runnable(jobs0), end0, d0, total0, j, before[j].stages);
      jobs := before[j := Job(true, stages)];
      JobIsDealt(jobs0, j, before, end0, stages, end);
    } else {
      d, total, jobs, end := d0, total0, before, end0;
      JobIsSkipped(jobs0, j, before);
    }
  }

  lemma NextJobStands(jobs0: seq<Job>, j: nat, before: seq<Job>)
    requires j < |before| && DoneUpto(jobs0, before, j) && before[j].running
    ensures Stands(Runnable(jobs0), |Flatten(TasksOfJobs(jobs0)[..j])|, TasksOfStages(j, before[j].stages, {}))
  {
    ListStands(Runnable(jobs0), 0, TasksOfJobs(jobs0), j);
  }

  lemma JobIsSkipped(jobs0: seq<Job>, j: nat, before: seq<Job>)
    requires j < |before| && DoneUpto(jobs0, before, j) && !before[j].running
    ensures DoneUpto(jobs0, before, j + 1)
    ensures |Flatten(TasksOfJobs(jobs0)[..j + 1])| == |Flatten(TasksOfJobs(jobs0)[..j])|
  {
    OneJobMore(jobs0, before, j, before[j]);
    assert before[j := before[j]] == before;
    ListStands(Runnable(jobs0), 0, TasksOfJobs(jobs0), j);
  }

  lemma JobIsDealt(jobs0: seq<Job>, j: nat, before: seq<Job>, end0: nat, stages: seq<Stage>, end: nat)
    requires j < |before| && DoneUpto(jobs0, before, j) && JobsProgressed(jobs0, before) && before[j].running
    requires end0 == |Flatten(TasksOfJobs(jobs0)[..j])|
    requires AllProgressed(before[j].stages, stages)
    requires Leaves(Runnable(jobs0), end0, j, before[j].stages, end, stages)
    ensures var jobs := before[j := Job(true, stages)];
            && JobsProgressed(jobs0, jobs) && Runnable(jobs) == Runnable(jobs0)[end..]
            && (TasksOfStages(j, stages, {}) == [] ==>
                  DoneUpto(jobs0, jobs, j + 1) && end == |Flatten(TasksOfJobs(jobs0)[..j + 1])|)
  {
    var job := Job(true, stages);
    OneJobProgressed(jobs0, before, j, job);
    LeftOfJob(jobs0, before, j, end0, stages, end);
    if TasksOfStages(j, stages, {}) == [] {
      OneJobMore(jobs0, before, j, job);
      ListStands(Runnable(jobs0), 0, TasksOfJobs(jobs0), j);
    }
  }

  lemma OneJobProgressed(jobs0: seq<Job>, before: seq<Job>, j: nat, job: Job)
    requires JobsProgressed(jobs0, before) && j < |before| && before[j] == jobs0[j]
    requires job.running == before[j].running && AllProgressed(before[j].stages, job.stages)
    ensures JobsProgressed(jobs0, before[j := job])
  {}

  lemma LeftIsRest(all: seq<Task>, n: nat, tasks: seq<Task>, end: nat, left: seq<Task>)
    requires Stands(all, n, tasks) && Stands(all, end, left) && n <= end && end + |left| == n + |tasks|
    ensures left == tasks[end - n..]
  {
    assert tasks[end - n..] == all[n..n + |tasks|][end - n..];
  }

  lemma LeftOfJob(jobs0: seq<Job>, before: seq<Job>, j: nat, end0: nat, stages: seq<Stage>, end: nat)
    requires j < |before| && DoneUpto(jobs0, before, j) && before[j].running
    requires end0 == |Flatten(TasksOfJobs(jobs0)[..j])|
    requires Leaves(Runnable(jobs0), end0, j, before[j].stages, end, stages)
    ensures Runnable(before[j := Job(true, stages)]) == Runnable(jobs0)[end..]
  {
    var jobs := before[j := Job(true, stages)];
    assert jobs[j := jobs0[j]] == before;
    LeftIsRest(Runnable(jobs0), end0, TasksOfJob(j, jobs0[j]), end, TasksOfJob(j, jobs[j]));
    RunnableLeft(jobs0, jobs, j, end - end0);
  }

  lemma OneJobMore(jobs0: seq<Job>, before: seq<Job>, j: nat, job: Job)
    requires j < |before| && DoneUpto(jobs0, before, j) && TasksOfJob(j, job) == []
    ensures DoneUpto(jobs0, before[j := job], j + 1)
  {}

  /** Job after job; what is bound is taken away from the runnable tasks. */
  method DealJobs(sorted: Record, total0: nat, jobs0: seq<Job>)
    returns (d: Deal, jobs: seq<Job>, ghost end: nat)
    requires Descending(sorted) && Sum(sorted) == total0 > 0
    ensures end == Min(Sum(sorted), |Runnable(jobs0)|) && d == Dealt(sorted, Runnable(jobs0)[..end])
    ensures JobsProgressed(jobs0, jobs) && Runnable(jobs) == Runnable(jobs0)[end..]
  {
    d, jobs, end := Deal(sorted, 0, [], []), jobs0, 0;
    var total := total0;
    for j := 0 to |jobs0|
      invariant JobsReached(sorted, jobs0, j, jobs, end, d, total) && total > 0
    {
      d, total, jobs, end := DealNextJob(sorted, jobs0, j, jobs, end, d, total);
      if total == 0 {
        return;
      }
    }
    assert TasksOfJobs(jobs0)[..|jobs0|] == TasksOfJobs(jobs0);
    NothingLeft(jobs0, jobs);
  }

  function TasksBound(d: Deal): seq<Task> {
    seq(|d.bound|, k requires 0 <= k < |d.bound| => d.bound[k].1)
  }

  /** The bound tasks are bindable, each bound once and in order; all are bound unless the slots are used up. */
  ghost predicate BindsAll(slots: Record, jobs: seq<Job>, tasks: seq<Task>) {
    && InOrder(jobs, tasks) && (forall i, j :: 0 <= i < j < |tasks| ==> tasks[i] != tasks[j])
    && (forall x :: x in tasks ==> Bindable(jobs, x))
    && |tasks| <= Sum(slots)
    && (|tasks| < Sum(slots) ==> forall x :: Bindable(jobs, x) ==> x in tasks)
  }

  /** What was bindable is bound or still bindable, and never both. */
  ghost predicate Splits(jobs: seq<Job>, tasks: seq<Task>, jobs': seq<Job>) {
    forall x :: Bindable(jobs', x) <==> Bindable(jobs, x) && x !in tasks
  }

  lemma FirstRunnableBindAll(slots: Record, jobs: seq<Job>)
    ensures BindsAll(slots, jobs, Runnable(jobs)[..Min(Sum(slots), |Runnable(jobs)|)])
  {
    RunnableAre(jobs);
    var all := Runnable(jobs);
    var tasks := all[..Min(Sum(slots), |all|)];
    forall i, j | 0 <= i < j < |tasks| ensures tasks[i] != tasks[j] {
      assert Earlier(jobs, all[i], all[j]);
      NotEarlierThanItself(jobs, tasks[i]);
    }
    assert forall x :: x in tasks ==> x in all;
    assert |tasks| < Sum(slots) ==> tasks == all;
  }

  lemma FirstAndRestSplit(jobs: seq<Job>, n: nat, jobs': seq<Job>)
    requires n <= |Runnable(jobs)| && Runnable(jobs') == Runnable(jobs)[n..]
    ensures Splits(jobs, Runnable(jobs)[..n], jobs')
  {
    RunnableAre(jobs);
    RunnableAre(jobs');
    var all := Runnable(jobs);
    assert all == all[..n] + all[n..];
    forall i, j | 0 <= i < n <= j < |all| ensures all[i] != all[j] {
      assert Earlier(jobs, all[i], all[j]);
      NotEarlierThanItself(jobs, all[i]);
    }
  }

  lemma AssignedAreBound(slots: Record, tasks: seq<Task>, d: Deal)
    requires Assigned(slots, tasks, d.chosen, d.bound)
    ensures TasksBound(d) == tasks
  {}

  lemma DealtBinds(slots: Record, tasks: seq<Task>, sorted: Record, d: Deal)
    requires |tasks| <= Sum(slots) && sorted == Sorted(slots) && d == Dealt(sorted, tasks)
    ensures TasksBound(d) == tasks && Assigned(sorted, tasks, d.chosen, d.bound)
    ensures Conserved(sorted, d.left, d.chosen) && Even(d.left, d.chosen)
  {
    SortedIsSorted(slots);
    SumOfSorted(slots);
    RoundRobinIsFair(sorted, tasks);
    AssignedAreBound(sorted, tasks, d);
  }

  /**
   Binds the runnable tasks in order, as many as there are slots: to slots that are free, evenly, each
   task once. The jobs come back without the bound tasks.
   */
  method BindRoundRobin(slots: Record, jobs: seq<Job>) returns (d: Deal, jobs': seq<Job>)
    ensures d == Dealt(Sorted(slots), Runnable(jobs)[..Min(Sum(slots), |Runnable(jobs)|)])
    ensures Assigned(Sorted(slots), TasksBound(d), d.chosen, d.bound)
    ensures Conserved(Sorted(slots), d.left, d.chosen) && Even(d.left, d.chosen)
    ensures BindsAll(slots, jobs, TasksBound(d))
    ensures JobsProgressed(jobs, jobs') && Splits(jobs, TasksBound(d), jobs')
  {
    ghost var end := Min(Sum(slots), |Runnable(jobs)|);
    FirstRunnableBindAll(slots, jobs);
    DealtBinds(slots, Runnable(jobs)[..end], Sorted(slots), Dealt(Sorted(slots), Runnable(jobs)[..end]));
    var total := Sum(slots);
    var sorted := Sorted(slots);
    if total == 0 {
      FirstAndRestSplit(jobs, 0, jobs);
      return Deal(sorted, 0, [], []), jobs;
    }
    SortedIsSorted(slots);
    SumOfSorted(slots);
    d, jobs', end := DealJobs(sorted, total, jobs);
    FirstAndRestSplit(jobs, end, jobs');
  }
}
