/**
 The status of jobs, kept in memory or in a key-value store.

 The in-memory implementation spreads a job over three maps, the key-value one over a queue and a
 store. `MemStep` and `KvStep` are their operations on values; the classes are the implementations.
 Over every run that respects the guard, both report the same status for every job.
 */
module JobState {
  import opened Wrappers

  datatype Status =
    | Queued(queuedAt: nat)
    | Running(queuedAt: nat, startedAt: nat, scheduler: string)
    | Failed(error: string, queuedAt: nat, startedAt: nat, endedAt: nat)
    | Successful(queuedAt: nat, startedAt: nat, endedAt: nat)

  /** status is optional, as in the message it models. */
  datatype JobStatus = JobStatus(jobId: string, jobName: string, status: Option<Status>)

  datatype ExecutionGraph = ExecutionGraph(status: JobStatus, plan: string)

  predicate IsTerminal(s: JobStatus) {
    s.status.Some? && (s.status.value.Successful? || s.status.value.Failed?)
  }

  function QueuedStatus(jobId: string, entry: (string, nat)): JobStatus {
    JobStatus(jobId, entry.0, Some(Queued(entry.1)))
  }

  function FailedStatus(jobId: string, entry: (string, nat), reason: string, endedAt: nat): JobStatus {
    JobStatus(jobId, entry.0, Some(Failed(reason, entry.1, 0, endedAt)))
  }

  datatype Operation =
    | Accept(jobId: string, jobName: string, queuedAt: nat)
    | Submit(jobId: string, graph: ExecutionGraph)
    | Save(jobId: string, graph: ExecutionGraph)
    | FailUnscheduled(jobId: string, reason: string, now: nat)
    | Remove(jobId: string)

  // ---------- In memory ----------

  datatype MemJobs = MemJobs(
    queued: map<string, (string, nat)>, running: map<string, JobStatus>,
    completed: map<string, (JobStatus, Option<ExecutionGraph>)>)

  /** The new maps, and whether the operation succeeded. */
  function MemStep(m: MemJobs, op: Operation): (MemJobs, bool) {
    match op
    case Accept(id, name, at) => (m.(queued := m.queued[id := (name, at)]), true)
    case Submit(id, graph) =>
      if id in m.queued
      then (m.(running := m.running[id := graph.status], queued := m.queued - {id}), true)
      else (m, false)
    case Save(id, graph) =>
      if IsTerminal(graph.status)
      then (m.(completed := m.completed[id := (graph.status, Some(graph))], running := m.running - {id}), true)
      else (m.(running := m.running[id := graph.status]), true)
    case FailUnscheduled(id, reason, now) =>
      if id in m.queued
      then (m.(queued := m.queued - {id},
               completed := m.completed[id := (FailedStatus(id, m.queued[id], reason, now), None)]), true)
      else (m, false)
    case Remove(id) => (m.(completed := m.completed - {id}), true)
  }

  function MemStored(m: MemJobs, id: string): Option<JobStatus> {
    if id in m.running then Some(m.running[id])
    else if id in m.completed then Some(m.completed[id].0)
    else None
  }

  function MemStatus(m: MemJobs, id: string): Option<JobStatus> {
    if id in m.queued then Some(QueuedStatus(id, m.queued[id])) else MemStored(m, id)
  }

  /** Graphs are kept of completed jobs only. */
  function MemGraph(m: MemJobs, id: string): Option<ExecutionGraph> {
    if id in m.completed then m.completed[id].1 else None
  }

  class InMemoryJobState {
    var queuedJobs: map<string, (string, nat)>
    var runningJobs: map<string, JobStatus>
    var completedJobs: map<string, (JobStatus, Option<ExecutionGraph>)>

    function Contents(): MemJobs
      reads this
    {
      MemJobs(queuedJobs, runningJobs, completedJobs)
    }

    constructor ()
      ensures Contents() == MemJobs(map[], map[], map[])
    {
      queuedJobs, runningJobs, completedJobs := map[], map[], map[];
    }

    method AcceptJob(jobId: string, jobName: string, queuedAt: nat)
      modifies this
      ensures Contents() == MemStep(old(Contents()), Accept(jobId, jobName, queuedAt)).0
    {
      queuedJobs := queuedJobs[jobId := (jobName, queuedAt)];
    }

    method SubmitJob(jobId: string, graph: ExecutionGraph) returns (ok: bool)
      modifies this
      ensures (Contents(), ok) == MemStep(old(Contents()), Submit(jobId, graph))
    {
      ok := jobId in queuedJobs;
      if ok {
        runningJobs := runningJobs[jobId := graph.status];
        queuedJobs := queuedJobs - {jobId};
      }
    }

    method SaveJob(jobId: string, graph: ExecutionGraph)
      modifies this
      ensures Contents() == MemStep(old(Contents()), Save(jobId, graph)).0
    {
      if IsTerminal(graph.status) {
        completedJobs := completedJobs[jobId := (graph.status, Some(graph))];
        runningJobs := runningJobs - {jobId};
      } else {
        runningJobs := runningJobs[jobId := graph.status];
      }
    }

    method FailUnscheduledJob(jobId: string, reason: string, now: nat) returns (ok: bool)
      modifies this
      ensures (Contents(), ok) == MemStep(old(Contents()), FailUnscheduled(jobId, reason, now))
    {
      ok := jobId in queuedJobs;
      if ok {
        var entry := queuedJobs[jobId];
        queuedJobs := queuedJobs - {jobId};
        completedJobs := completedJobs[jobId := (FailedStatus(jobId, entry, reason, now), None)];
      }
    }

    method RemoveJob(jobId: string)
      modifies this
      ensures Contents() == MemStep(old(Contents()), Remove(jobId)).0
    {
      completedJobs := completedJobs - {jobId};
    }

    method GetJobStatus(jobId: string) returns (status: Option<JobStatus>)
      ensures status == MemStatus(Contents(), jobId)
    {
      if jobId in queuedJobs {
        return Some(QueuedStatus(jobId, queuedJobs[jobId]));
      }
      if jobId in runningJobs {
        return Some(runningJobs[jobId]);
      }
      if jobId in completedJobs {
        return Some(completedJobs[jobId].0);
      }
      status := None;
    }

    method GetExecutionGraph(jobId: string) returns (graph: Option<ExecutionGraph>)
      ensures graph == MemGraph(Contents(), jobId)
    {
      graph := if jobId in completedJobs then completedJobs[jobId].1 else None;
    }
  }

  // ---------- In a key-value store ----------

  /** The queue is in memory; statuses and graphs are two keyspaces of the store. */
  datatype KvJobs = KvJobs(
    queued: map<string, (string, nat)>, statuses: map<string, JobStatus>, graphs: map<string, ExecutionGraph>)

  function KvStep(k: KvJobs, op: Operation): (KvJobs, bool) {
    match op
    case Accept(id, name, at) => (k.(queued := k.queued[id := (name, at)]), true)
    case Submit(id, graph) =>
      if id in k.queued
      then (KvJobs(k.queued - {id}, k.statuses[id := graph.status], k.graphs[id := graph]), true)
      else (k, false)
    case Save(id, graph) =>
      (k.(statuses := k.statuses[id := graph.status], graphs := k.graphs[id := graph]), true)
    case FailUnscheduled(id, reason, _) =>
      if id in k.queued
      then (k.(queued := k.queued - {id},
               statuses := k.statuses[id := FailedStatus(id, k.queued[id], reason, 0)]), true)
      else (k, false)
    case Remove(id) =>
      if id in k.queued then (k.(queued := k.queued - {id}), true)
      else (k.(statuses := k.statuses - {id}, graphs := k.graphs - {id}), true)
  }

  function KvStored(k: KvJobs, id: string): Option<JobStatus> {
    if id in k.statuses then Some(k.statuses[id]) else None
  }

  function KvStatus(k: KvJobs, id: string): Option<JobStatus> {
    if id in k.queued then Some(QueuedStatus(id, k.queued[id])) else KvStored(k, id)
  }

  function KvGraph(k: KvJobs, id: string): Option<ExecutionGraph> {
    if id in k.graphs then Some(k.graphs[id]) else None
  }

  class KeyValueJobState {
    var queuedJobs: map<string, (string, nat)>
    var statuses: map<string, JobStatus>
    var graphs: map<string, ExecutionGraph>

    function Contents(): KvJobs
      reads this
    {
      KvJobs(queuedJobs, statuses, graphs)
    }

    constructor ()
      ensures Contents() == KvJobs(map[], map[], map[])
    {
      queuedJobs, statuses, graphs := map[], map[], map[];
    }

    method AcceptJob(jobId: string, jobName: string, queuedAt: nat)
      modifies this
      ensures Contents() == KvStep(old(Contents()), Accept(jobId, jobName, queuedAt)).0
    {
      queuedJobs := queuedJobs[jobId := (jobName, queuedAt)];
    }

    method SubmitJob(jobId: string, graph: ExecutionGraph) returns (ok: bool)
      modifies this
      ensures (Contents(), ok) == KvStep(old(Contents()), Submit(jobId, graph))
    {
      ok := jobId in queuedJobs;
      if ok {
        statuses, graphs := statuses[jobId := graph.status], graphs[jobId := graph];
        queuedJobs := queuedJobs - {jobId};
      }
    }

    method SaveJob(jobId: string, graph: ExecutionGraph)
      modifies this
      ensures Contents() == KvStep(old(Contents()), Save(jobId, graph)).0
    {
      statuses, graphs := statuses[jobId := graph.status], graphs[jobId := graph];
    }

    method FailUnscheduledJob(jobId: string, reason: string, now: nat) returns (ok: bool)
      modifies this
      ensures (Contents(), ok) == KvStep(old(Contents()), FailUnscheduled(jobId, reason, now))
    {
      ok := jobId in queuedJobs;
      if ok {
        var entry := queuedJobs[jobId];
        queuedJobs := queuedJobs - {jobId};
        statuses := statuses[jobId := FailedStatus(jobId, entry, reason, 0)];
      }
    }

    method RemoveJob(jobId: string)
      modifies this
      ensures Contents() == KvStep(old(Contents()), Remove(jobId)).0
    {
      if jobId in queuedJobs {
        queuedJobs := queuedJobs - {jobId};
      } else {
        statuses, graphs := statuses - {jobId}, graphs - {jobId};
      }
    }

    method GetJobStatus(jobId: string) returns (status: Option<JobStatus>)
      ensures status == KvStatus(Contents(), jobId)
    {
      if jobId in queuedJobs {
        status := Some(QueuedStatus(jobId, queuedJobs[jobId]));
      } else if jobId in statuses {
        status := Some(statuses[jobId]);
      } else {
        status := None;
      }
    }

    method GetExecutionGraph(jobId: string) returns (graph: Option<ExecutionGraph>)
      ensures graph == KvGraph(Contents(), jobId)
    {
      graph := if jobId in graphs then Some(graphs[jobId]) else None;
    }
  }

  // ---------- Simulation ----------

  /** Forgets when a failed job ended: the key-value state does not record it for unscheduled jobs. */
  function Timeless(s: JobStatus): JobStatus {
    match s.status
    case Some(Failed(error, queuedAt, startedAt, _)) => s.(status := Some(Failed(error, queuedAt, startedAt, 0)))
    case _ => s
  }

  predicate Same(a: Option<JobStatus>, b: Option<JobStatus>) {
    match (a, b)
    case (None, None) => true
    case (Some(s), Some(t)) => Timeless(s) == Timeless(t)
    case _ => false
  }

  /** Both implementations report the same status for every job. */
  ghost predicate ReportSame(m: MemJobs, k: KvJobs) {
    forall id :: Same(MemStatus(m, id), KvStatus(k, id))
  }

  ghost predicate Simulates(m: MemJobs, k: KvJobs) {
    m.queued == k.queued && forall id :: Same(MemStored(m, id), KvStored(k, id))
  }

  /** What a caller must respect: fail only jobs that are not running, remove only those that are over. */
  predicate Guard(m: MemJobs, op: Operation) {
    match op
    case FailUnscheduled(id, _, _) => id in m.queued ==> id !in m.running
    case Remove(id) => id !in m.queued && id !in m.running
    case _ => true
  }

  lemma StepSimulates(m: MemJobs, k: KvJobs, op: Operation)
    requires Simulates(m, k) && Guard(m, op)
    ensures Simulates(MemStep(m, op).0, KvStep(k, op).0)
    ensures MemStep(m, op).1 == KvStep(k, op).1
  {
    var m', k' := MemStep(m, op).0, KvStep(k, op).0;
    forall id ensures Same(MemStored(m', id), KvStored(k', id)) {
      assert Same(MemStored(m, id), KvStored(k, id));
    }
  }

  function MemAfter(ops: seq<Operation>): MemJobs {
    if ops == [] then MemJobs(map[], map[], map[]) else MemStep(MemAfter(ops[..|ops| - 1]), ops[|ops| - 1]).0
  }

  function KvAfter(ops: seq<Operation>): KvJobs {
    if ops == [] then KvJobs(map[], map[], map[]) else KvStep(KvAfter(ops[..|ops| - 1]), ops[|ops| - 1]).0
  }

  predicate Guarded(ops: seq<Operation>) {
    ops == [] || (Guarded(ops[..|ops| - 1]) && Guard(MemAfter(ops[..|ops| - 1]), ops[|ops| - 1]))
  }

  /** Over every guarded run the two implementations agree on every status and on the pending jobs. */
  lemma {:induction false} RunsReportTheSame(ops: seq<Operation>)
    requires Guarded(ops)
    ensures Simulates(MemAfter(ops), KvAfter(ops))
    ensures ReportSame(MemAfter(ops), KvAfter(ops))
    ensures |MemAfter(ops).queued| == |KvAfter(ops).queued|
  {
    if ops != [] {
      RunsReportTheSame(ops[..|ops| - 1]);
      StepSimulates(MemAfter(ops[..|ops| - 1]), KvAfter(ops[..|ops| - 1]), ops[|ops| - 1]);
    }
    forall id ensures Same(MemStatus(MemAfter(ops), id), KvStatus(KvAfter(ops), id)) {
      assert Same(MemStored(MemAfter(ops), id), KvStored(KvAfter(ops), id));
    }
  }

  // ---------- The guard is exact ----------

  /** Graphs are submitted while running, and saved running or finished. */
  predicate Plausible(op: Operation) {
    match op
    case Submit(_, graph) => graph.status.status.Some? && graph.status.status.value.Running?
    case Save(_, graph) => graph.status.status.Some? && !graph.status.status.value.Queued?
    case _ => true
  }

  ghost predicate PlausibleJobs(m: MemJobs, k: KvJobs) {
    && (forall id :: id in m.running ==> m.running[id].status.Some? && m.running[id].status.value.Running?)
    && (forall id :: id in k.statuses ==> k.statuses[id].status.Some? && !k.statuses[id].status.value.Queued?)
  }

  /** An operation keeps the reports the same exactly if it respects the guard. */
  lemma GuardIsExact(m: MemJobs, k: KvJobs, op: Operation)
    requires Simulates(m, k) && PlausibleJobs(m, k) && Plausible(op)
    ensures PlausibleJobs(MemStep(m, op).0, KvStep(k, op).0)
    ensures ReportSame(MemStep(m, op).0, KvStep(k, op).0) <==> Guard(m, op)
  {
    var m', k' := MemStep(m, op).0, KvStep(k, op).0;
    if Guard(m, op) {
      StepSimulates(m, k, op);
      forall id ensures Same(MemStatus(m', id), KvStatus(k', id)) {
        assert Same(MemStored(m', id), KvStored(k', id));
      }
    } else {
      assert !Same(MemStatus(m', op.jobId), KvStatus(k', op.jobId));
    }
  }

  // ---------- The life of a job ----------

  /** Ids are accepted once, only jobs that run are saved, only jobs that are over are removed. */
  predicate InOrder(m: MemJobs, op: Operation) {
    match op
    case Accept(id, _, _) => id !in m.queued && id !in m.running && id !in m.completed
    case Submit(_, graph) => !IsTerminal(graph.status)
    case Save(id, _) => id in m.running
    case FailUnscheduled(_, _, _) => true
    case Remove(id) => id in m.completed
  }

  predicate AllInOrder(ops: seq<Operation>) {
    ops == [] || (AllInOrder(ops[..|ops| - 1]) && InOrder(MemAfter(ops[..|ops| - 1]), ops[|ops| - 1]))
  }

  /** A job is in one of the three maps at a time. */
  ghost predicate OnePlace(m: MemJobs) {
    m.queued.Keys !! m.running.Keys && m.queued.Keys !! m.completed.Keys && m.running.Keys !! m.completed.Keys
  }

  /** A run that leads every job through its life in order is guarded. */
  lemma {:induction false} LifeInOrderIsGuarded(ops: seq<Operation>)
    requires AllInOrder(ops)
    ensures Guarded(ops) && OnePlace(MemAfter(ops))
  {
    if ops != [] {
      LifeInOrderIsGuarded(ops[..|ops| - 1]);
    }
  }

  // ---------- What is reported ----------

  /**
   What an operation does to the report of a job, seen from outside: from report to report. The end of an
   unscheduled job is timed or not.
   */
  function ReportAfter(before: Option<JobStatus>, id: string, op: Operation, timed: bool): Option<JobStatus> {
    if op.jobId != id then before
    else match op
      case Accept(_, name, at) => Some(JobStatus(id, name, Some(Queued(at))))
      case Submit(_, graph) => if IsQueued(before) then Some(graph.status) else before
      case Save(_, graph) => Some(graph.status)
      case FailUnscheduled(_, reason, now) =>
        if IsQueued(before)
        then Some(JobStatus(id, before.value.jobName,
                            Some(Failed(reason, before.value.status.value.queuedAt, 0, if timed then now else 0))))
        else before
      case Remove(_) => None
  }

  predicate IsQueued(s: Option<JobStatus>) {
    s.Some? && s.value.status.Some? && s.value.status.value.Queued?
  }

  function Report(ops: seq<Operation>, id: string, timed: bool): Option<JobStatus> {
    if ops == [] then None
    else ReportAfter(Report(ops[..|ops| - 1], id, timed), id, ops[|ops| - 1], timed)
  }

  predicate AllPlausible(ops: seq<Operation>) {
    forall i :: 0 <= i < |ops| ==> Plausible(ops[i])
  }

  /** Only what is in the queue is reported as queued. */
  ghost predicate QueuedInQueue(m: MemJobs, k: KvJobs) {
    forall id :: !IsQueued(MemStored(m, id)) && !IsQueued(KvStored(k, id))
  }

  lemma StepReports(m: MemJobs, k: KvJobs, op: Operation, id: string)
    requires OnePlace(m) && m.queued == k.queued && QueuedInQueue(m, k) && InOrder(m, op) && Plausible(op)
    ensures MemStatus(MemStep(m, op).0, id) == ReportAfter(MemStatus(m, id), id, op, true)
    ensures KvStatus(KvStep(k, op).0, id) == ReportAfter(KvStatus(k, id), id, op, false)
  {
    assert !IsQueued(MemStored(m, id)) && !IsQueued(KvStored(k, id));
  }

  lemma StepKeepsQueue(m: MemJobs, k: KvJobs, op: Operation)
    requires OnePlace(m) && m.queued == k.queued && QueuedInQueue(m, k) && InOrder(m, op) && Plausible(op)
    ensures QueuedInQueue(MemStep(m, op).0, KvStep(k, op).0)
  {
    var m', k' := MemStep(m, op).0, KvStep(k, op).0;
    forall id ensures !IsQueued(MemStored(m', id)) && !IsQueued(KvStored(k', id)) {
      assert !IsQueued(MemStored(m, id)) && !IsQueued(KvStored(k, id));
    }
  }

  /**
   Both states report of every job what its life says: name and time while it is queued, then the status of
   its graph, or why it failed with the name and time it was queued with, until it is removed. Only the
   in-memory state knows when an unscheduled job failed.
   */
  lemma {:induction false} ReportsFollowTheLife(ops: seq<Operation>, id: string)
    requires AllInOrder(ops) && AllPlausible(ops)
    ensures MemStatus(MemAfter(ops), id) == Report(ops, id, true)
    ensures KvStatus(KvAfter(ops), id) == Report(ops, id, false)
    ensures QueuedInQueue(MemAfter(ops), KvAfter(ops))
  {
    if ops != [] {
      var before, op := ops[..|ops| - 1], ops[|ops| - 1];
      ReportsFollowTheLife(before, id);
      LifeInOrderIsGuarded(before);
      RunsReportTheSame(before);
      StepReports(MemAfter(before), KvAfter(before), op, id);
      StepKeepsQueue(MemAfter(before), KvAfter(before), op);
    }
  }

  function GraphAfter(
    before: Option<ExecutionGraph>, queued: bool, id: string, op: Operation): Option<ExecutionGraph>
  {
    if op.jobId != id then before
    else match op
      case Submit(_, graph) => if queued then Some(graph) else before
      case Save(_, graph) => Some(graph)
      case Remove(_) => None
      case _ => before
  }

  /** The graph a job was last submitted or saved with. */
  function LastGraph(ops: seq<Operation>, id: string): Option<ExecutionGraph> {
    if ops == [] then None
    else
      var before := ops[..|ops| - 1];
      GraphAfter(LastGraph(before, id), IsQueued(Report(before, id, true)), id, ops[|ops| - 1])
  }

  predicate IsOver(s: Option<JobStatus>) {
    s.Some? && s.value.status.Some? && (s.value.status.value.Successful? || s.value.status.value.Failed?)
  }

  /** What the in-memory state keeps of the last graph of a job. */
  ghost predicate KeepsGraph(m: MemJobs, last: Option<ExecutionGraph>, id: string) {
    && (id in m.running ==> !IsOver(Some(m.running[id])))
    && (id in m.completed ==> IsOver(Some(m.completed[id].0)) && m.completed[id].1 == last)
    && (id !in m.running && id !in m.completed ==> last == None)
  }

  lemma StepKeepsGraph(m: MemJobs, last: Option<ExecutionGraph>, id: string, op: Operation)
    requires OnePlace(m) && InOrder(m, op) && Plausible(op) && KeepsGraph(m, last, id)
    ensures KeepsGraph(MemStep(m, op).0, GraphAfter(last, id in m.queued, id, op), id)
  {}

  lemma StepStoresGraph(m: MemJobs, k: KvJobs, id: string, op: Operation)
    requires OnePlace(m) && InOrder(m, op) && m.queued == k.queued
    ensures KvGraph(KvStep(k, op).0, id) == GraphAfter(KvGraph(k, id), id in m.queued, id, op)
  {}

  lemma QueuedIff(ops: seq<Operation>, id: string)
    requires AllInOrder(ops) && AllPlausible(ops)
    ensures IsQueued(Report(ops, id, true)) <==> id in MemAfter(ops).queued
    ensures MemAfter(ops).queued == KvAfter(ops).queued && OnePlace(MemAfter(ops))
  {
    ReportsFollowTheLife(ops, id);
    LifeInOrderIsGuarded(ops);
    RunsReportTheSame(ops);
    assert !IsQueued(MemStored(MemAfter(ops), id));
  }

  lemma {:induction false} GraphsAreKept(ops: seq<Operation>, id: string)
    requires AllInOrder(ops) && AllPlausible(ops)
    ensures KeepsGraph(MemAfter(ops), LastGraph(ops, id), id)
    ensures KvGraph(KvAfter(ops), id) == LastGraph(ops, id)
  {
    if ops != [] {
      var before, op := ops[..|ops| - 1], ops[|ops| - 1];
      GraphsAreKept(before, id);
      QueuedIff(before, id);
      StepKeepsGraph(MemAfter(before), LastGraph(before, id), id, op);
      StepStoresGraph(MemAfter(before), KvAfter(before), id, op);
    }
  }

  /** Of a job that is over both states return the graph it was last saved with, and the in-memory state only then. */
  lemma GraphsOfFinishedJobs(ops: seq<Operation>, id: string)
    requires AllInOrder(ops) && AllPlausible(ops)
    ensures KvGraph(KvAfter(ops), id) == LastGraph(ops, id)
    ensures MemGraph(MemAfter(ops), id) == if IsOver(Report(ops, id, true)) then LastGraph(ops, id) else None
  {
    GraphsAreKept(ops, id);
    ReportsFollowTheLife(ops, id);
    LifeInOrderIsGuarded(ops);
  }
}
