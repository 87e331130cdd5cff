/**
 * The store-atomic model: every read, listing and update of the store is a step of its
 * own, taken by any number of concurrent dispatchers, cancellations and rollbacks.
 * Updates carry no precondition on what was read, so a write may overtake another.
 */
module Interleaving {
  import opened Common
  import opened Jobs

  type JobTable = map<string, Job>

  /** All jobs here are of one agency. */
  const AGENCY := "agency"

  /**
   * Where a thread stands between two storage calls, with its local variables.
   */
  datatype Thread =
    | Creating(functionName: string, trigger: string, payload: string, taskId: string, run: string)
    | AnnounceCreated(id: string)
    | StartGuard(id: string)
    | StartWrite(id: string)
    | AnnounceStarted(id: string, run: string)
    | Executing(id: string, run: string)
    | FailGuard(id: string, msg: string)
    | FailWrite(id: string, msg: string, count: int)
    | AnnounceFailed(id: string)
    | BindGuard(id: string, minted: string, result: string)
    | BindWrite(id: string, minted: string, result: string)
    | CompleteGuard(id: string, result: string)
    | CompleteWrite(id: string, result: string)
    | AnnounceCompleted(id: string)
    | CancelGuard(target: string)
    | CancelWrite(target: string)
    | Listing(wanted: string, reason: string)
    | Sweeping(wanted: string, reason: string, now: nat, todo: seq<Job>)
    | Stamping(wanted: string, reason: string, now: nat, job: Job, todo: seq<Job>, stamp: Option<nat>)
    | Finished

  /**
   * What the environment decides in a step: faults, fresh ids, clock, output, listing order,
   * and whether the publisher hears a rollback's event.
   */
  datatype Choice = Choice(fault: Fault, newId: string, now: nat, output: Output, listing: seq<Job>, heard: bool)

  datatype Effect = Effect(jobs: JobTable, thread: Thread, events: seq<Event>)

  datatype State = State(jobs: JobTable, threads: seq<Thread>, events: seq<Event>)

  datatype Action = Spawn(thread: Thread) | Step(tid: nat, choice: Choice)

  /** A listing of the run's jobs: each exactly once, as stored, in any order. */
  ghost predicate IsListing(jobs: JobTable, run: string, js: seq<Job>) {
    && (forall i | 0 <= i < |js| :: js[i].id in jobs && jobs[js[i].id] == js[i] && js[i].workflowRunId == run)
    && (forall i, j | 0 <= i < j < |js| :: js[i].id != js[j].id)
    && (forall id | id in jobs && jobs[id].workflowRunId == run :: jobs[id] in js)
  }

  /** An update call and where the thread goes when it is acknowledged. */
  function Update(jobs: JobTable, id: string, w: Write, fault: Fault, acked: Thread, failed: Thread,
                  events: seq<Event>): Effect
  {
    if id !in jobs || fault == Lost then Effect(jobs, failed, [])
    else
      var written := jobs[id := JobAfter(jobs[id], w)];
      if fault == NoFault then Effect(written, acked, events) else Effect(written, failed, [])
  }

  /** Publishing reads the job again; a failed read or publish drops the event. */
  function Announce(jobs: JobTable, id: string, topic: Topic, fault: Fault, next: Thread): Effect {
    Effect(jobs, next, if id in jobs && fault == NoFault then [LifecycleEvent(topic, jobs[id])] else [])
  }

  /** A lifecycle call's read and guard. */
  function Guarded(jobs: JobTable, id: string, allowed: set<JobStatus>, fault: Fault, next: Thread): Effect {
    Effect(jobs, if id in jobs && fault == NoFault && jobs[id].status in allowed then next else Finished, [])
  }

  /** Where the dispatcher goes once the binary has run. */
  function AfterRun(id: string, run: string, output: Output): Thread {
    match output
    case RunError(msg) => FailGuard(id, msg)
    case Ran(isError, result, error, minted) =>
      if isError then FailGuard(id, error)
      else if run == "" && minted != "" then BindGuard(id, minted, result)
      else CompleteGuard(id, result)
  }

  function DispatchStep(jobs: JobTable, t: Thread, c: Choice): Effect {
    match t
    case Creating(f, trigger, payload, taskId, run) =>
      if c.newId in jobs then Effect(jobs, t, [])
      else if c.fault == Lost then Effect(jobs, Finished, [])
      else
        var created := jobs[c.newId := NewJob(c.newId, AGENCY, f, trigger, payload, taskId, run, c.now)];
        Effect(created, if c.fault == NoFault then AnnounceCreated(c.newId) else Finished, [])
    case AnnounceCreated(id) => Announce(jobs, id, JobCreated, c.fault, StartGuard(id))
    case StartGuard(id) => Guarded(jobs, id, {Pending, Retrying}, c.fault, StartWrite(id))
    case StartWrite(id) =>
      var run := if id in jobs then jobs[id].workflowRunId else "";
      Update(jobs, id, WStart(c.now), c.fault, AnnounceStarted(id, run), Finished, [])
    case AnnounceStarted(id, run) => Announce(jobs, id, JobStarted, c.fault, Executing(id, run))
    case Executing(id, run) => Effect(jobs, AfterRun(id, run, c.output), [])
    case FailGuard(id, msg) =>
      var count := if id in jobs then jobs[id].retryCount + 1 else 0;
      Guarded(jobs, id, {Running}, c.fault, FailWrite(id, msg, count))
    case FailWrite(id, msg, count) =>
      Update(jobs, id, WFail(count, msg, c.now), c.fault,
             if FailStatus(count) == Failed then AnnounceFailed(id) else Finished, Finished, [])
    case AnnounceFailed(id) => Announce(jobs, id, JobFailed, c.fault, Finished)
    case BindGuard(id, minted, result) =>
      if id in jobs && c.fault == NoFault then Effect(jobs, BindWrite(id, minted, result), [])
      else Effect(jobs, CompleteGuard(id, result), [])
    case BindWrite(id, minted, result) =>
      Update(jobs, id, WBindRun(minted), c.fault, CompleteGuard(id, result),
             CompleteGuard(id, result), [])
    case CompleteGuard(id, result) =>
      Guarded(jobs, id, {Running}, c.fault, CompleteWrite(id, result))
    case CompleteWrite(id, result) =>
      Update(jobs, id, WComplete(result, c.now), c.fault, AnnounceCompleted(id), Finished, [])
    case AnnounceCompleted(id) => Announce(jobs, id, JobCompleted, c.fault, Finished)
    case _ => Effect(jobs, t, [])
  }

  function CancelStep(jobs: JobTable, t: Thread, c: Choice): Effect {
    match t
    case CancelGuard(id) => Guarded(jobs, id, {Pending, Running}, c.fault, CancelWrite(id))
    case CancelWrite(id) => Update(jobs, id, WCancel(c.now), c.fault, Finished, Finished, [])
    case _ => Effect(jobs, t, [])
  }

  /** Rollback: list, then per listed job re-read, patch and announce; the first failure ends it. */
  ghost function RollbackStep(jobs: JobTable, t: Thread, c: Choice): Effect {
    match t
    case Listing(run, reason) =>
      if run == "" || c.fault != NoFault then Effect(jobs, Finished, [])
      else if IsListing(jobs, run, c.listing) then Effect(jobs, Sweeping(run, reason, c.now, c.listing), [])
      else Effect(jobs, t, [])
    case Sweeping(run, reason, now, todo) =>
      if todo == [] then Effect(jobs, Finished, [])
      else if RollbackTarget(todo[0].status).None? then Effect(jobs, Sweeping(run, reason, now, todo[1..]), [])
      else if todo[0].id !in jobs || c.fault != NoFault then Effect(jobs, Finished, [])
      else
        var stamp := if jobs[todo[0].id].completedAt.None? then Some(now) else None;
        Effect(jobs, Stamping(run, reason, now, todo[0], todo[1..], stamp), [])
    case Stamping(run, reason, now, job, todo, stamp) =>
      if RollbackTarget(job.status).None? then Effect(jobs, Finished, [])
      else
        Update(jobs, job.id, WRollback(RollbackTarget(job.status).value, reason, stamp), c.fault,
               Sweeping(run, reason, now, todo), Finished,
               if c.heard then [WithdrawalEvent(job, run, reason)] else [])
    case _ => Effect(jobs, t, [])
  }

  ghost function ThreadStep(jobs: JobTable, t: Thread, c: Choice): Effect {
    if t.CancelGuard? || t.CancelWrite? then CancelStep(jobs, t, c)
    else if t.Listing? || t.Sweeping? || t.Stamping? then RollbackStep(jobs, t, c)
    else DispatchStep(jobs, t, c)
  }

  ghost function Next(s: State, a: Action): State {
    match a
    case Spawn(t) =>
      if t.Creating? || t.CancelGuard? || t.Listing? then s.(threads := s.threads + [t]) else s
    case Step(tid, c) =>
      if tid >= |s.threads| then s
      else
        var e := ThreadStep(s.jobs, s.threads[tid], c);
        State(e.jobs, s.threads[tid := e.thread], s.events + e.events)
  }

  ghost const Init := State(map[], [], [])

  /** The state after a sequence of actions. */
  ghost function After(s: State, actions: seq<Action>): State {
    if actions == [] then s
    else Next(After(s, actions[..|actions| - 1]), actions[|actions| - 1])
  }

  // ---------- what a thread relies on, and what it guarantees to the others ----------

  /** The job a dispatcher created and alone drives. */
  function Owner(t: Thread): Option<string> {
    match t
    case AnnounceCreated(id) => Some(id)
    case StartGuard(id) => Some(id)
    case StartWrite(id) => Some(id)
    case AnnounceStarted(id, _) => Some(id)
    case Executing(id, _) => Some(id)
    case FailGuard(id, _) => Some(id)
    case FailWrite(id, _, _) => Some(id)
    case AnnounceFailed(id) => Some(id)
    case BindGuard(id, _, _) => Some(id)
    case BindWrite(id, _, _) => Some(id)
    case CompleteGuard(id, _) => Some(id)
    case CompleteWrite(id, _) => Some(id)
    case AnnounceCompleted(id) => Some(id)
    case _ => None
  }

  ghost predicate AllOfRun(jobs: JobTable, run: string, js: seq<Job>) {
    && run != ""
    && forall i | 0 <= i < |js| :: js[i].id in jobs && jobs[js[i].id].workflowRunId == run
  }

  /** What holds of the store while a thread stands where it does. */
  ghost predicate ThreadOk(jobs: JobTable, t: Thread) {
    && (Owner(t).Some? ==> Owner(t).value in jobs)
    && match t
       case AnnounceStarted(id, run) => jobs[id].workflowRunId == run
       case Executing(id, run) => jobs[id].workflowRunId == run
       case BindGuard(id, minted, _) => jobs[id].workflowRunId == "" && minted != ""
       case BindWrite(id, minted, _) => jobs[id].workflowRunId == "" && minted != ""
       case Sweeping(run, _, _, todo) => AllOfRun(jobs, run, todo)
       case Stamping(run, _, _, job, todo, stamp) =>
         && AllOfRun(jobs, run, todo)
         && job.id in jobs && jobs[job.id].workflowRunId == run
         && (stamp.None? ==> jobs[job.id].completedAt.Some?)
       case _ => true
  }

  ghost predicate EndedHasTime(jobs: JobTable) {
    forall id | id in jobs :: Terminal(jobs[id].status) ==> jobs[id].completedAt.Some?
  }

  /**
   * The guarantee of a step whose thread owns `mine`: jobs are never removed, a set
   * completion time is never emptied, a non-empty run id never changes, and only the
   * owner binds a run id.
   */
  ghost predicate Guarantee(pre: JobTable, post: JobTable, mine: Option<string>) {
    forall id | id in pre ::
      && id in post
      && (pre[id].completedAt.Some? ==> post[id].completedAt.Some?)
      && (pre[id].workflowRunId != "" || mine != Some(id) ==> post[id].workflowRunId == pre[id].workflowRunId)
  }

  /** Another thread's guarantee keeps what this thread relies on. */
  lemma ThreadOkStable(pre: JobTable, post: JobTable, mine: Option<string>, t: Thread)
    requires ThreadOk(pre, t) && Guarantee(pre, post, mine)
    requires Owner(t).Some? ==> Owner(t) != mine
    ensures ThreadOk(post, t)
  {}

  ghost predicate GoodEffect(jobs: JobTable, t: Thread, e: Effect) {
    && Guarantee(jobs, e.jobs, Owner(t))
    && EndedHasTime(e.jobs)
    && ThreadOk(e.jobs, e.thread)
  }

  /** One acknowledged or unacknowledged write keeps the table's invariant and the guarantee. */
  lemma WriteEffect(jobs: JobTable, id: string, w: Write, mine: Option<string>)
    requires id in jobs && EndedHasTime(jobs) && Sendable(w)
    requires w.WBindRun? ==> jobs[id].workflowRunId == "" && mine == Some(id)
    requires w.WRollback? && w.stamp.None? ==> jobs[id].completedAt.Some?
    ensures var written := jobs[id := JobAfter(jobs[id], w)];
      Guarantee(jobs, written, mine) && EndedHasTime(written)
  {}

  lemma UpdateEffect(jobs: JobTable, t: Thread, id: string, w: Write, fault: Fault, acked: Thread,
                     failed: Thread, events: seq<Event>)
    requires id in jobs && EndedHasTime(jobs) && Sendable(w)
    requires w.WBindRun? ==> jobs[id].workflowRunId == "" && Owner(t) == Some(id)
    requires w.WRollback? && w.stamp.None? ==> jobs[id].completedAt.Some?
    requires ThreadOk(jobs[id := JobAfter(jobs[id], w)], acked)
    requires ThreadOk(jobs[id := JobAfter(jobs[id], w)], failed) && ThreadOk(jobs, failed)
    ensures GoodEffect(jobs, t, Update(jobs, id, w, fault, acked, failed, events))
  {
    hide GoodEffect;
    hide ThreadOk;
    hide EndedHasTime;
    hide Guarantee;
    hide JobAfter;
    var written := jobs[id := JobAfter(jobs[id], w)];
    WriteEffect(jobs, id, w, Owner(t));
    ReadEffect(jobs, t, failed, []);
    GoodWrite(jobs, t, written, acked, events);
    GoodWrite(jobs, t, written, failed, []);
  }

  lemma GoodWrite(jobs: JobTable, t: Thread, written: JobTable, next: Thread, events: seq<Event>)
    requires Guarantee(jobs, written, Owner(t)) && EndedHasTime(written) && ThreadOk(written, next)
    ensures GoodEffect(jobs, t, Effect(written, next, events))
  {}

  lemma CreateEffect(jobs: JobTable, t: Thread, c: Choice)
    requires t.Creating? && EndedHasTime(jobs)
    ensures GoodEffect(jobs, t, DispatchStep(jobs, t, c))
  {}

  lemma DispatchWriteEffect(jobs: JobTable, t: Thread, c: Choice)
    requires t.StartWrite? || t.FailWrite? || t.BindWrite? || t.CompleteWrite?
    requires ThreadOk(jobs, t) && EndedHasTime(jobs)
    ensures GoodEffect(jobs, t, DispatchStep(jobs, t, c))
  {
    match t
    case StartWrite(id) =>
      UpdateEffect(jobs, t, id, WStart(c.now), c.fault, AnnounceStarted(id, jobs[id].workflowRunId), Finished, []);
    case FailWrite(id, msg, count) =>
      UpdateEffect(jobs, t, id, WFail(count, msg, c.now), c.fault,
                   if FailStatus(count) == Failed then AnnounceFailed(id) else Finished, Finished, []);
    case BindWrite(id, minted, result) =>
      UpdateEffect(jobs, t, id, WBindRun(minted), c.fault, CompleteGuard(id, result),
                   CompleteGuard(id, result), []);
    case CompleteWrite(id, result) =>
      UpdateEffect(jobs, t, id, WComplete(result, c.now), c.fault, AnnounceCompleted(id), Finished, []);
  }

  /** A step that changes no job is good if the thread may rely on what it does next. */
  lemma ReadEffect(jobs: JobTable, t: Thread, next: Thread, events: seq<Event>)
    requires EndedHasTime(jobs) && ThreadOk(jobs, next)
    ensures GoodEffect(jobs, t, Effect(jobs, next, events))
  {}

  lemma DispatchReadStep(jobs: JobTable, t: Thread, c: Choice)
    requires !t.Creating? && !t.StartWrite? && !t.FailWrite? && !t.BindWrite? && !t.CompleteWrite?
    requires ThreadOk(jobs, t)
    ensures var e := DispatchStep(jobs, t, c); e.jobs == jobs && ThreadOk(jobs, e.thread)
  {
    hide LifecycleEvent;
    hide AllOfRun;
  }

  lemma DispatchEffect(jobs: JobTable, t: Thread, c: Choice)
    requires ThreadOk(jobs, t) && EndedHasTime(jobs)
    ensures GoodEffect(jobs, t, DispatchStep(jobs, t, c))
  {
    hide DispatchStep;
    hide GoodEffect;
    if t.Creating? {
      CreateEffect(jobs, t, c);
    } else if t.StartWrite? || t.FailWrite? || t.BindWrite? || t.CompleteWrite? {
      DispatchWriteEffect(jobs, t, c);
    } else {
      DispatchReadStep(jobs, t, c);
      ReadEffect(jobs, t, DispatchStep(jobs, t, c).thread, DispatchStep(jobs, t, c).events);
    }
  }

  lemma CancelEffect(jobs: JobTable, t: Thread, c: Choice)
    requires ThreadOk(jobs, t) && EndedHasTime(jobs)
    ensures GoodEffect(jobs, t, CancelStep(jobs, t, c))
  {}

  lemma SweepEffect(jobs: JobTable, t: Thread, c: Choice)
    requires t.Sweeping? && ThreadOk(jobs, t) && EndedHasTime(jobs)
    ensures GoodEffect(jobs, t, RollbackStep(jobs, t, c))
  {
    assert t.todo != [] ==> AllOfRun(jobs, t.wanted, t.todo[1..]);
  }

  lemma StampEffect(jobs: JobTable, t: Thread, c: Choice)
    requires t.Stamping? && ThreadOk(jobs, t) && EndedHasTime(jobs)
    ensures GoodEffect(jobs, t, RollbackStep(jobs, t, c))
  {
    if RollbackTarget(t.job.status).Some? {
      var w := WRollback(RollbackTarget(t.job.status).value, t.reason, t.stamp);
      UpdateEffect(jobs, t, t.job.id, w, c.fault, Sweeping(t.wanted, t.reason, t.now, t.todo), Finished,
                   if c.heard then [WithdrawalEvent(t.job, t.wanted, t.reason)] else []);
    }
  }

  lemma RollbackEffect(jobs: JobTable, t: Thread, c: Choice)
    requires ThreadOk(jobs, t) && EndedHasTime(jobs)
    ensures GoodEffect(jobs, t, RollbackStep(jobs, t, c))
  {
    if t.Sweeping? {
      SweepEffect(jobs, t, c);
    } else if t.Stamping? {
      StampEffect(jobs, t, c);
    }
  }

  // ---------- the global invariant ----------

  ghost predicate IdsMatch(jobs: JobTable) {
    forall id | id in jobs :: jobs[id].id == id
  }

  ghost predicate OneOwner(threads: seq<Thread>) {
    forall i, j | 0 <= i < j < |threads| :: Owner(threads[i]).Some? ==> Owner(threads[i]) != Owner(threads[j])
  }

  predicate IsCompletion(e: Event) { e.Lifecycle? && e.topic == JobCompleted }

  /** A completion event bears its job's run id, and nobody is left who could bind another. */
  ghost predicate CompletionTold(s: State, e: Event) {
    && e.Lifecycle?
    && e.jobId in s.jobs
    && s.jobs[e.jobId].workflowRunId == e.workflowRunId
    && forall i | 0 <= i < |s.threads| :: Owner(s.threads[i]) != Some(e.jobId)
  }

  ghost predicate Inv(s: State) {
    && IdsMatch(s.jobs)
    && EndedHasTime(s.jobs)
    && (forall i | 0 <= i < |s.threads| :: ThreadOk(s.jobs, s.threads[i]))
    && OneOwner(s.threads)
    && forall k | 0 <= k < |s.events| :: IsCompletion(s.events[k]) ==> CompletionTold(s, s.events[k])
  }

  lemma StepEffect(jobs: JobTable, t: Thread, c: Choice)
    requires ThreadOk(jobs, t) && EndedHasTime(jobs)
    ensures GoodEffect(jobs, t, ThreadStep(jobs, t, c))
  {
    DispatchEffect(jobs, t, c);
    CancelEffect(jobs, t, c);
    RollbackEffect(jobs, t, c);
  }

  lemma OwnerAfterDispatchStep(jobs: JobTable, t: Thread, c: Choice)
    ensures var o := Owner(DispatchStep(jobs, t, c).thread);
      o.None? || o == Owner(t) || (o.value !in jobs && t.Creating?)
  {
    hide LifecycleEvent;
    hide JobAfter;
    if t.Executing? { assert Owner(AfterRun(t.id, t.run, c.output)) == Some(t.id); }
  }

  /** A thread keeps its job, gives it up, or has just created it. */
  lemma OwnerAfterStep(jobs: JobTable, t: Thread, c: Choice)
    ensures var o := Owner(ThreadStep(jobs, t, c).thread);
      o.None? || o == Owner(t) || (o.value !in jobs && t.Creating?)
  {
    OwnerAfterDispatchStep(jobs, t, c);
    hide DispatchStep;
    hide JobAfter;
    hide WithdrawalEvent;
    hide IsListing;
  }

  lemma IdsMatchAfterStep(jobs: JobTable, t: Thread, c: Choice)
    requires IdsMatch(jobs)
    ensures IdsMatch(ThreadStep(jobs, t, c).jobs)
  {
    hide LifecycleEvent;
    hide WithdrawalEvent;
    hide IsListing;
  }

  /** Only the last step of a dispatcher tells of a completion, reading the job as it is. */
  lemma CompletionEvents(jobs: JobTable, t: Thread, c: Choice)
    ensures var e := ThreadStep(jobs, t, c);
      forall k | 0 <= k < |e.events| :: IsCompletion(e.events[k]) ==>
        t.AnnounceCompleted? && t.id in jobs && e.jobs == jobs && e.thread == Finished
        && e.events[k] == LifecycleEvent(JobCompleted, jobs[t.id])
  {
    hide JobAfter;
    hide IsListing;
  }

  lemma InvStep(s: State, tid: nat, c: Choice)
    requires Inv(s) && tid < |s.threads|
    ensures Inv(Next(s, Step(tid, c)))
  {
    var t := s.threads[tid];
    var e := ThreadStep(s.jobs, t, c);
    var s' := Next(s, Step(tid, c));
    StepEffect(s.jobs, t, c);
    OwnerAfterStep(s.jobs, t, c);
    IdsMatchAfterStep(s.jobs, t, c);
    forall i | 0 <= i < |s'.threads| ensures ThreadOk(s'.jobs, s'.threads[i]) {
      if i != tid { ThreadOkStable(s.jobs, e.jobs, Owner(t), s.threads[i]); }
    }
    forall i, j | 0 <= i < j < |s'.threads| && Owner(s'.threads[i]).Some?
      ensures Owner(s'.threads[i]) != Owner(s'.threads[j])
    {}
    InvEvents(s, tid, c);
  }

  lemma InvEvents(s: State, tid: nat, c: Choice)
    requires Inv(s) && tid < |s.threads|
    ensures var s' := Next(s, Step(tid, c));
      forall k | 0 <= k < |s'.events| :: IsCompletion(s'.events[k]) ==> CompletionTold(s', s'.events[k])
  {
    var t := s.threads[tid];
    var e := ThreadStep(s.jobs, t, c);
    var s' := Next(s, Step(tid, c));
    StepEffect(s.jobs, t, c);
    OwnerAfterStep(s.jobs, t, c);
    CompletionEvents(s.jobs, t, c);
    forall k | 0 <= k < |s'.events| && IsCompletion(s'.events[k]) ensures CompletionTold(s', s'.events[k]) {
      if k < |s.events| {
        assert CompletionTold(s, s.events[k]);
        assert Owner(t) != Some(s.events[k].jobId);
      } else {
        assert s'.events[k] == e.events[k - |s.events|];
        assert Owner(t) == Some(t.id);
      }
    }
  }

  /** Every interleaving keeps the invariant. */
  lemma InvNext(s: State, a: Action)
    requires Inv(s)
    ensures Inv(Next(s, a))
  {
    if a.Step? && a.tid < |s.threads| { InvStep(s, a.tid, a.choice); }
  }

  lemma {:induction false} InvAfter(s: State, actions: seq<Action>)
    requires Inv(s)
    ensures Inv(After(s, actions))
  {
    if actions != [] {
      InvAfter(s, actions[..|actions| - 1]);
      InvNext(After(s, actions[..|actions| - 1]), actions[|actions| - 1]);
    }
  }

  // ---------- completion times and run ids ----------

  /** What holds of one job between an earlier and a later state of a run. */
  ghost predicate JobKept(before: State, after: State, id: string)
    requires id in before.jobs
  {
    && id in after.jobs
    && (before.jobs[id].completedAt.Some? ==> after.jobs[id].completedAt.Some?)
    && (before.jobs[id].workflowRunId != "" ==> after.jobs[id].workflowRunId == before.jobs[id].workflowRunId)
  }

  /**
   * In every interleaving, with any storage faults: every ended job has a completion time,
   * a completion time once set is never emptied, and a non-empty run id never changes.
   */
  lemma {:induction false} CompletionTimeAndRunIdAreKept(earlier: seq<Action>, more: seq<Action>, id: string)
    requires id in After(Init, earlier).jobs
    ensures var s, s' := After(Init, earlier), After(After(Init, earlier), more);
      && JobKept(s, s', id)
      && (Terminal(s.jobs[id].status) ==> s.jobs[id].completedAt.Some?)
  {
    var s := After(Init, earlier);
    InvAfter(Init, earlier);
    if more != [] {
      var head, last := more[..|more| - 1], more[|more| - 1];
      CompletionTimeAndRunIdAreKept(earlier, head, id);
      InvAfter(s, head);
      var m := After(s, head);
      if last.Step? && last.tid < |m.threads| { StepEffect(m.jobs, m.threads[last.tid], last.choice); }
    }
  }

  /** Any two rollbacks about to write the same job, at whatever times, are of the same run. */
  lemma RollbacksOfAJobAreOfOneRun(earlier: seq<Action>, more: seq<Action>, i: nat, j: nat)
    requires var s, s' := After(Init, earlier), After(After(Init, earlier), more);
      && i < |s.threads| && s.threads[i].Stamping?
      && j < |s'.threads| && s'.threads[j].Stamping?
      && s.threads[i].job.id == s'.threads[j].job.id
    ensures After(Init, earlier).threads[i].wanted == After(After(Init, earlier), more).threads[j].wanted
  {
    hide After;
    hide Next;
    hide CompletionTold;
    var s, s' := After(Init, earlier), After(After(Init, earlier), more);
    InvAfter(Init, earlier);
    InvAfter(s, more);
    assert ThreadOk(s.jobs, s.threads[i]) && ThreadOk(s'.jobs, s'.threads[j]);
    CompletionTimeAndRunIdAreKept(earlier, more, s.threads[i].job.id);
  }

  /**
   * A dispatcher that completes publishes one event, and it bears the run id that its job
   * has then and in every later state.
   */
  lemma CompletionCarriesRunId(earlier: seq<Action>, tid: nat, c: Choice, more: seq<Action>)
    requires tid < |After(Init, earlier).threads| && After(Init, earlier).threads[tid].AnnounceCompleted?
    requires c.fault == NoFault
    ensures var s := After(Init, earlier);
      var t, s' := s.threads[tid], Next(s, Step(tid, c));
      && |s'.events| == |s.events| + 1
      && IsCompletion(s'.events[|s.events|])
      && s'.events[|s.events|].jobId == t.id
      && t.id in After(s', more).jobs
      && After(s', more).jobs[t.id].workflowRunId == s'.events[|s.events|].workflowRunId
  {
    var s := After(Init, earlier);
    var t, s' := s.threads[tid], Next(s, Step(tid, c));
    InvAfter(Init, earlier);
    assert ThreadOk(s.jobs, t);
    InvNext(s, Step(tid, c));
    EventsKept(s', more, |s.events|);
    InvAfter(s', more);
    assert CompletionTold(After(s', more), s'.events[|s.events|]);
  }

  lemma {:induction false} EventsKept(s: State, more: seq<Action>, k: nat)
    requires k < |s.events|
    ensures k < |After(s, more).events| && After(s, more).events[k] == s.events[k]
  {
    if more != [] { EventsKept(s, more[..|more| - 1], k); }
  }

  /** An acknowledged back-fill stores the minted run id. */
  lemma BindEffect(s: State, tid: nat, c: Choice)
    requires Inv(s) && tid < |s.threads| && s.threads[tid].BindWrite? && c.fault == NoFault
    ensures var t, bound := s.threads[tid], Next(s, Step(tid, c));
      t.minted != "" && t.id in bound.jobs && bound.jobs[t.id].workflowRunId == t.minted
  {
    assert ThreadOk(s.jobs, s.threads[tid]);
  }

  /**
   * Chain-through, in every interleaving: once a back-fill is acknowledged, every completion
   * event of that job, whenever published, bears the minted run id.
   */
  lemma BackfillReachesEveryCompletion(earlier: seq<Action>, tid: nat, c: Choice, more: seq<Action>, k: nat)
    requires tid < |After(Init, earlier).threads| && After(Init, earlier).threads[tid].BindWrite?
    requires c.fault == NoFault
    requires var t, s' := After(Init, earlier).threads[tid], After(Next(After(Init, earlier), Step(tid, c)), more);
      k < |s'.events| && IsCompletion(s'.events[k]) && s'.events[k].jobId == t.id
    ensures After(Next(After(Init, earlier), Step(tid, c)), more).events[k].workflowRunId
         == After(Init, earlier).threads[tid].minted
  {
    var s, a := After(Init, earlier), Step(tid, c);
    var t, bound := s.threads[tid], Next(s, a);
    InvAfter(Init, earlier);
    BindEffect(s, tid, c);
    hide Next;
    hide ThreadOk;
    hide OneOwner;
    assert (earlier + [a])[..|earlier|] == earlier;
    assert After(Init, earlier + [a]) == bound;
    CompletionTimeAndRunIdAreKept(earlier + [a], more, t.id);
    InvAfter(Init, earlier + [a]);
    InvAfter(bound, more);
    assert CompletionTold(After(bound, more), After(bound, more).events[k]);
  }

  // ---------- withdrawal is final only once no guarded write is outstanding ----------

  ghost predicate IsWithdrawn(s: State, id: string) {
    id in s.jobs && Withdrawn(s.jobs[id].status)
  }

  /** A dispatcher that passed its guard and has its write of job id still to come. */
  predicate Poised(t: Thread, id: string) {
    (t.StartWrite? || t.FailWrite? || t.CompleteWrite?) && t.id == id
  }

  ghost predicate NonePoised(s: State, id: string) {
    forall i | 0 <= i < |s.threads| :: !Poised(s.threads[i], id)
  }

  lemma DispatchKeepsWithdrawn(jobs: JobTable, t: Thread, c: Choice, id: string)
    requires id in jobs && Withdrawn(jobs[id].status) && !Poised(t, id)
    ensures var e := DispatchStep(jobs, t, c);
      id in e.jobs && Withdrawn(e.jobs[id].status) && !Poised(e.thread, id)
  {
    hide LifecycleEvent;
  }

  /** Cancellation and rollback never take a job out of the withdrawn statuses. */
  lemma WithdrawalIsClosed(jobs: JobTable, t: Thread, c: Choice, id: string)
    requires id in jobs && Withdrawn(jobs[id].status) && !Poised(t, id)
    ensures var e := ThreadStep(jobs, t, c);
      id in e.jobs && Withdrawn(e.jobs[id].status) && !Poised(e.thread, id)
  {
    DispatchKeepsWithdrawn(jobs, t, c, id);
    hide DispatchStep;
    hide IsListing;
  }

  lemma {:induction false} UnpoisedStaysWithdrawn(s: State, id: string, actions: seq<Action>)
    requires IsWithdrawn(s, id) && NonePoised(s, id)
    ensures IsWithdrawn(After(s, actions), id) && NonePoised(After(s, actions), id)
  {
    if actions != [] {
      var m, last := After(s, actions[..|actions| - 1]), actions[|actions| - 1];
      UnpoisedStaysWithdrawn(s, id, actions[..|actions| - 1]);
      if last.Step? && last.tid < |m.threads| {
        WithdrawalIsClosed(m.jobs, m.threads[last.tid], last.choice, id);
      }
    }
  }

  lemma PoisedWriteEscapes(s: State, id: string, tid: nat) returns (escape: seq<Action>)
    requires IsWithdrawn(s, id) && tid < |s.threads| && Poised(s.threads[tid], id)
    ensures !IsWithdrawn(After(s, escape), id)
  {
    var c := Choice(NoFault, "", 0, RunError(""), [], true);
    escape := [Step(tid, c)];
    assert escape[..0] == [];
    assert After(s, []) == s;
    assert After(s, escape) == Next(s, escape[0]);
  }

  /**
   * A cancelled or rolled-back job stays so in every continuation if and only if no
   * dispatcher is poised to write it after a guard it passed earlier.
   */
  lemma WithdrawalIsFinalIff(s: State, id: string)
    requires IsWithdrawn(s, id)
    ensures (forall actions :: IsWithdrawn(After(s, actions), id)) <==> NonePoised(s, id)
  {
    if NonePoised(s, id) {
      forall actions ensures IsWithdrawn(After(s, actions), id) { UnpoisedStaysWithdrawn(s, id, actions); }
    } else {
      var tid :| 0 <= tid < |s.threads| && Poised(s.threads[tid], id);
      var escape := PoisedWriteEscapes(s, id, tid);
    }
  }

  // ---------- how often a job can leave the withdrawn statuses ----------

  ghost function Exit(s: State, a: Action, id: string): nat {
    if IsWithdrawn(s, id) && !IsWithdrawn(Next(s, a), id) then 1 else 0
  }

  /** How often, along the actions, the job leaves {cancelled, rolled_back}. */
  ghost function Exits(s: State, actions: seq<Action>, id: string): nat {
    if actions == [] then 0
    else
      var head, last := actions[..|actions| - 1], actions[|actions| - 1];
      Exits(s, head, id) + Exit(After(s, head), last, id)
  }

  /** The status writes a dispatcher has still to make: its start, then its one outcome. */
  function WritesLeft(t: Thread, id: string): nat {
    if Owner(t) != Some(id) || t.AnnounceFailed? || t.AnnounceCompleted? then 0
    else if t.AnnounceCreated? || t.StartGuard? || t.StartWrite? then 2
    else 1
  }

  function AllWritesLeft(threads: seq<Thread>, id: string): nat {
    if threads == [] then 0
    else AllWritesLeft(threads[..|threads| - 1], id) + WritesLeft(threads[|threads| - 1], id)
  }

  lemma {:induction false} WritesLeftUpdate(threads: seq<Thread>, tid: nat, t: Thread, id: string)
    requires tid < |threads|
    ensures AllWritesLeft(threads[tid := t], id) + WritesLeft(threads[tid], id)
         == AllWritesLeft(threads, id) + WritesLeft(t, id)
  {
    var n := |threads| - 1;
    if tid < n {
      WritesLeftUpdate(threads[..n], tid, t, id);
      assert threads[tid := t][..n] == threads[..n][tid := t];
    } else {
      assert threads[tid := t][..n] == threads[..n];
    }
  }

  lemma {:induction false} NoWritesLeft(threads: seq<Thread>, id: string)
    requires forall i | 0 <= i < |threads| :: Owner(threads[i]) != Some(id)
    ensures AllWritesLeft(threads, id) == 0
  {
    if threads != [] { NoWritesLeft(threads[..|threads| - 1], id); }
  }

  /** No step gives a thread more writes, and a poised one's step uses one up. */
  lemma WritesLeftFall(jobs: JobTable, t: Thread, c: Choice, id: string)
    requires id in jobs
    ensures WritesLeft(ThreadStep(jobs, t, c).thread, id) + (if Poised(t, id) then 1 else 0) <= WritesLeft(t, id)
  {
    hide JobAfter;
    hide LifecycleEvent;
    if t.Executing? { assert WritesLeft(AfterRun(t.id, t.run, c.output), t.id) == 1; }
  }

  /** A step out of the withdrawn statuses uses up one of the stepping dispatcher's writes. */
  lemma ExitUsesWrite(s: State, tid: nat, c: Choice, id: string)
    requires tid < |s.threads| && id in s.jobs
    ensures WritesLeft(Next(s, Step(tid, c)).threads[tid], id) + Exit(s, Step(tid, c), id)
         <= WritesLeft(s.threads[tid], id)
  {
    hide ThreadStep;
    hide WritesLeft;
    var t := s.threads[tid];
    WritesLeftFall(s.jobs, t, c, id);
    if IsWithdrawn(s, id) && !Poised(t, id) { WithdrawalIsClosed(s.jobs, t, c, id); }
  }

  lemma BudgetStep(s: State, a: Action, id: string, used: nat)
    requires Inv(s)
    requires if id in s.jobs then used + AllWritesLeft(s.threads, id) <= 2 else used == 0
    ensures var s' := Next(s, a);
      if id in s'.jobs then used + Exit(s, a, id) + AllWritesLeft(s'.threads, id) <= 2
      else used + Exit(s, a, id) == 0
  {
    var s' := Next(s, a);
    InvNext(s, a);
    if a.Spawn? {
      if s' != s { assert s'.threads[..|s.threads|] == s.threads; }
    } else if a.tid < |s.threads| {
      WritesLeftUpdate(s.threads, a.tid, s'.threads[a.tid], id);
      if id in s.jobs {
        ExitUsesWrite(s, a.tid, a.choice, id);
        StepEffect(s.jobs, s.threads[a.tid], a.choice);
      } else {
        forall i | 0 <= i < |s.threads| ensures Owner(s.threads[i]) != Some(id) {
          assert ThreadOk(s.jobs, s.threads[i]);
        }
        NoWritesLeft(s.threads, id);
      }
    }
  }

  lemma {:induction false} ExitBudget(actions: seq<Action>, id: string)
    ensures var s := After(Init, actions);
      if id in s.jobs then Exits(Init, actions, id) + AllWritesLeft(s.threads, id) <= 2
      else Exits(Init, actions, id) == 0
  {
    if actions != [] {
      var head := actions[..|actions| - 1];
      ExitBudget(head, id);
      InvAfter(Init, head);
      BudgetStep(After(Init, head), actions[|actions| - 1], id, Exits(Init, head, id));
    }
  }

  /**
   * In every interleaving a job leaves {cancelled, rolled_back} at most twice, and never
   * again once its dispatcher has returned.
   */
  lemma ExitsAtMostTwice(actions: seq<Action>, id: string)
    ensures Exits(Init, actions, id) <= 2
    ensures var s := After(Init, actions);
      IsWithdrawn(s, id) && (forall i | 0 <= i < |s.threads| :: Owner(s.threads[i]) != Some(id)) ==>
        forall more :: IsWithdrawn(After(s, more), id)
  {
    ExitBudget(actions, id);
    var s := After(Init, actions);
    if IsWithdrawn(s, id) && forall i | 0 <= i < |s.threads| :: Owner(s.threads[i]) != Some(id) {
      assert forall i | 0 <= i < |s.threads| :: Poised(s.threads[i], id) ==> Owner(s.threads[i]) == Some(id);
      WithdrawalIsFinalIff(s, id);
    }
  }

  lemma Extend(s: State, actions: seq<Action>, a: Action, id: string)
    ensures After(s, actions + [a]) == Next(After(s, actions), a)
    ensures Exits(s, actions + [a], id) == Exits(s, actions, id) + Exit(After(s, actions), a, id)
  {
    assert (actions + [a])[..|actions|] == actions;
  }

  ghost const Quiet := Choice(NoFault, "j", 0, Ran(false, "", "", ""), [], true)

  /** The states a cancellation passes through when nothing interferes. */
  lemma CancelStates(s: State, id: string)
    requires id in s.jobs && s.jobs[id].status in {Pending, Running}
    ensures var spawn, step := Spawn(CancelGuard(id)), Step(|s.threads|, Quiet);
      var guarded := s.(threads := s.threads + [CancelWrite(id)]);
      && Next(s, spawn).jobs == s.jobs
      && Next(Next(s, spawn), step) == guarded
      && Next(guarded, step).jobs == s.jobs[id := JobAfter(s.jobs[id], WCancel(0))]
      && Next(guarded, step).threads == s.threads + [Finished]
  {}

  /** A whole cancellation, taken while a dispatcher stands elsewhere. */
  lemma CancelSlipsIn(past: seq<Action>, id: string) returns (run: seq<Action>)
    requires id in After(Init, past).jobs && After(Init, past).jobs[id].status in {Pending, Running}
    ensures var s, s' := After(Init, past), After(Init, run);
      && Exits(Init, run, id) == Exits(Init, past, id)
      && IsWithdrawn(s', id)
      && s'.threads == s.threads + [Finished]
  {
    hide Next;
    var s := After(Init, past);
    var spawn, step := Spawn(CancelGuard(id)), Step(|s.threads|, Quiet);
    CancelStates(s, id);
    Extend(Init, past, spawn, id);
    Extend(Init, past + [spawn], step, id);
    Extend(Init, past + [spawn] + [step], step, id);
    run := past + [spawn] + [step] + [step];
  }

  /** A cancellation that slips in between a dispatcher's guard and its write is overwritten. */
  lemma Overtaken(past: seq<Action>, id: string) returns (run: seq<Action>)
    requires var s := After(Init, past);
      && id in s.jobs && s.jobs[id].status in {Pending, Running}
      && |s.threads| > 0 && s.threads[0] in {StartWrite(id), CompleteWrite(id, "")}
    ensures var t, s' := After(Init, past).threads[0], After(Init, run);
      && Exits(Init, run, id) == Exits(Init, past, id) + 1
      && id in s'.jobs && |s'.threads| > 0
      && (t.StartWrite? ==> s'.jobs[id].status == Running && s'.threads[0].AnnounceStarted? && s'.threads[0].id == id)
      && (t.CompleteWrite? ==> s'.jobs[id].status == Completed)
  {
    hide ThreadStep;
    var cancelled := CancelSlipsIn(past, id);
    var s := After(Init, cancelled);
    QuietStart(s.jobs, id, "");
    QuietEnd(s.jobs, id);
    assert After(Init, cancelled).threads[0] == After(Init, past).threads[0];
    Extend(Init, cancelled, Step(0, Quiet), id);
    run := cancelled + [Step(0, Quiet)];
  }

  /** A dispatcher's undisturbed steps up to its start. */
  lemma QuietStart(jobs: JobTable, id: string, workflowRun: string)
    ensures var creating, created := Creating("f", "t", "", "", workflowRun),
                                     jobs["j" := NewJob("j", AGENCY, "f", "t", "", "", workflowRun, 0)];
      "j" !in jobs ==> ThreadStep(jobs, creating, Quiet) == Effect(created, AnnounceCreated("j"), [])
    ensures var e := ThreadStep(jobs, AnnounceCreated(id), Quiet); e.jobs == jobs && e.thread == StartGuard(id)
    ensures id in jobs && jobs[id].status == Pending ==>
      ThreadStep(jobs, StartGuard(id), Quiet) == Effect(jobs, StartWrite(id), [])
    ensures id in jobs ==>
      ThreadStep(jobs, StartWrite(id), Quiet)
      == Effect(jobs[id := JobAfter(jobs[id], WStart(0))], AnnounceStarted(id, jobs[id].workflowRunId), [])
  {}

  /** And from there to its completion. */
  lemma QuietRun(jobs: JobTable, id: string, workflowRun: string)
    ensures var e := ThreadStep(jobs, AnnounceStarted(id, workflowRun), Quiet);
      e.jobs == jobs && e.thread == Executing(id, workflowRun)
    ensures ThreadStep(jobs, Executing(id, workflowRun), Quiet) == Effect(jobs, CompleteGuard(id, ""), [])
    ensures id in jobs && jobs[id].status == Running ==>
      ThreadStep(jobs, CompleteGuard(id, ""), Quiet) == Effect(jobs, CompleteWrite(id, ""), [])
  {}

  lemma QuietEnd(jobs: JobTable, id: string)
    requires id in jobs
    ensures ThreadStep(jobs, CompleteWrite(id, ""), Quiet)
         == Effect(jobs[id := JobAfter(jobs[id], WComplete("", 0))], AnnounceCompleted(id), [])
    ensures ThreadStep(jobs, AnnounceCompleted(id), Quiet)
         == Effect(jobs, Finished, [LifecycleEvent(JobCompleted, jobs[id])])
  {}

  /** A dispatcher that has created its job and passed the guard of its start. */
  lemma ToStartWrite(workflowRun: string) returns (run: seq<Action>)
    ensures var s := After(Init, run);
      && Exits(Init, run, "j") == 0
      && "j" in s.jobs && s.jobs["j"].status == Pending && s.jobs["j"].id == "j"
      && s.jobs["j"].workflowRunId == workflowRun && s.jobs["j"].completedAt.None?
      && s.jobs.Keys == {"j"} && s.threads == [StartWrite("j")]
  {
    hide ThreadStep;
    var spawn, first := Spawn(Creating("f", "t", "", "", workflowRun)), Step(0, Quiet);
    var created := map["j" := NewJob("j", AGENCY, "f", "t", "", "", workflowRun, 0)];
    QuietStart(map[], "j", workflowRun);
    QuietStart(created, "j", workflowRun);
    Extend(Init, [], spawn, "j");
    Extend(Init, [spawn], first, "j");
    Extend(Init, [spawn] + [first], first, "j");
    Extend(Init, [spawn] + [first] + [first], first, "j");
    assert [] + [spawn] == [spawn];
    run := [spawn] + [first] + [first] + [first];
  }

  /** From a started job to its completion write. */
  lemma ToCompleteWrite(past: seq<Action>) returns (run: seq<Action>)
    requires var s := After(Init, past);
      && "j" in s.jobs && s.jobs["j"].status == Running
      && |s.threads| > 0 && s.threads[0].AnnounceStarted? && s.threads[0].id == "j"
    ensures var s, s' := After(Init, past), After(Init, run);
      && Exits(Init, run, "j") == Exits(Init, past, "j")
      && s'.jobs == s.jobs && s'.threads == s.threads[0 := CompleteWrite("j", "")]
  {
    hide ThreadStep;
    var first := Step(0, Quiet);
    var s := After(Init, past);
    QuietRun(s.jobs, "j", s.threads[0].run);
    Extend(Init, past, first, "j");
    Extend(Init, past + [first], first, "j");
    Extend(Init, past + [first] + [first], first, "j");
    run := past + [first] + [first] + [first];
  }

  /** The bound is met: a job cancelled twice can still end as completed. */
  lemma TwoExitsHappen() returns (run: seq<Action>)
    ensures Exits(Init, run, "j") == 2
    ensures "j" in After(Init, run).jobs && After(Init, run).jobs["j"].status == Completed
  {
    run := ToStartWrite("");
    run := Overtaken(run, "j");
    run := ToCompleteWrite(run);
    run := Overtaken(run, "j");
  }
}
