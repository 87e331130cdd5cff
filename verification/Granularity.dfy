/** Where nothing interferes, the store-atomic threads do what the call-atomic models do. */
module Granularity {
  import opened Common
  import opened Jobs
  import L = Lifecycle
  import I = Interleaving
  import Receiver

  /** n steps of one thread, with no step of another between them; events accumulate. */
  ghost function Alone(jobs: map<string, Job>, t: I.Thread, c: I.Choice, n: nat): I.Effect
    decreases n
  {
    if n == 0 then I.Effect(jobs, t, [])
    else
      var first := I.ThreadStep(jobs, t, c);
      var rest := Alone(first.jobs, first.thread, c, n - 1);
      I.Effect(rest.jobs, rest.thread, first.events + rest.events)
  }

  lemma AloneStep(jobs: map<string, Job>, t: I.Thread, c: I.Choice, n: nat)
    requires n > 0
    ensures var first := I.ThreadStep(jobs, t, c);
      var rest := Alone(first.jobs, first.thread, c, n - 1);
      Alone(jobs, t, c, n) == I.Effect(rest.jobs, rest.thread, first.events + rest.events)
  {}

  /** A first step that announces nothing. */
  lemma AloneSilent(jobs: map<string, Job>, t: I.Thread, c: I.Choice, n: nat, after: map<string, Job>, next: I.Thread)
    requires n > 0 && I.ThreadStep(jobs, t, c) == I.Effect(after, next, [])
    ensures Alone(jobs, t, c, n) == Alone(after, next, c, n - 1)
  {
    var rest := Alone(after, next, c, n - 1);
    assert [] + rest.events == rest.events;
  }

  lemma AloneNone(jobs: map<string, Job>, t: I.Thread, c: I.Choice)
    ensures Alone(jobs, t, c, 0) == I.Effect(jobs, t, [])
  {}

  lemma {:induction false} FinishedStays(jobs: map<string, Job>, c: I.Choice, n: nat)
    ensures Alone(jobs, I.Finished, c, n) == I.Effect(jobs, I.Finished, [])
    decreases n
  {
    if n > 0 { FinishedStays(jobs, c, n - 1); }
  }

  /** The first store call of a lifecycle call, as a thread. */
  function Opening(op: L.Op): I.Thread {
    match op
    case Start(id) => I.StartGuard(id)
    case Complete(id, result) => I.CompleteGuard(id, result)
    case Fail(id, msg) => I.FailGuard(id, msg)
    case _ => I.CancelGuard(op.id)
  }

  predicate IsGuarded(op: L.Op) { op.Start? || op.Complete? || op.Fail? || op.Cancel? }

  /** The second store call of a lifecycle call on job j. */
  function Writing(op: L.Op, j: Job): I.Thread {
    match op
    case Start(id) => I.StartWrite(id)
    case Complete(id, result) => I.CompleteWrite(id, result)
    case Fail(id, msg) => I.FailWrite(id, msg, j.retryCount + 1)
    case _ => I.CancelWrite(op.id)
  }

  /** What is left once job j has been written. */
  function Announcing(op: L.Op, j: Job): I.Thread {
    match op
    case Start(id) => I.AnnounceStarted(id, j.workflowRunId)
    case Complete(id, _) => I.AnnounceCompleted(id)
    case Fail(id, _) => if FailStatus(j.retryCount + 1) == Failed then I.AnnounceFailed(id) else I.Finished
    case _ => I.Finished
  }

  lemma OpeningStep(jobs: map<string, Job>, op: L.Op, c: I.Choice)
    requires IsGuarded(op) && c.fault == NoFault
    ensures I.ThreadStep(jobs, Opening(op), c)
         == I.Effect(jobs, if op.id in jobs && L.WriteOf(op, jobs[op.id], c.now).Some? then Writing(op, jobs[op.id])
                           else I.Finished, [])
  {}

  lemma WritingStep(jobs: map<string, Job>, op: L.Op, c: I.Choice)
    requires IsGuarded(op) && c.fault == NoFault && op.id in jobs && L.WriteOf(op, jobs[op.id], c.now).Some?
    ensures I.ThreadStep(jobs, Writing(op, jobs[op.id]), c)
         == I.Effect(jobs[op.id := JobAfter(jobs[op.id], L.WriteOf(op, jobs[op.id], c.now).value)],
                     Announcing(op, jobs[op.id]), [])
  {}

  lemma AnnouncingStep(jobs: map<string, Job>, op: L.Op, j: Job, c: I.Choice)
    requires IsGuarded(op) && c.fault == NoFault && op.id in jobs && L.WriteOf(op, j, c.now).Some?
    requires jobs[op.id] == JobAfter(j, L.WriteOf(op, j, c.now).value)
    ensures I.ThreadStep(jobs, Announcing(op, j), c).jobs == jobs
    ensures I.ThreadStep(jobs, Announcing(op, j), c).events == L.EventsOf(op, j, jobs[op.id])
  {}

  /** Guard, write and announcement, uninterrupted, are one step of the machine. */
  lemma UninterruptedCallIsAtomic(jobs: map<string, Job>, op: L.Op, c: I.Choice)
    requires IsGuarded(op) && c.fault == NoFault
    ensures var after, alone := L.Apply(L.Sys(jobs, [], c.now), L.Call(op, 0)), Alone(jobs, Opening(op), c, 3);
      alone.jobs == after.jobs && alone.events == after.events
  {
    hide Alone;
    hide I.ThreadStep;
    AloneStep(jobs, Opening(op), c, 3);
    OpeningStep(jobs, op, c);
    if op.id in jobs && L.WriteOf(op, jobs[op.id], c.now).Some? {
      var j := jobs[op.id];
      var after := jobs[op.id := JobAfter(j, L.WriteOf(op, j, c.now).value)];
      WritingStep(jobs, op, c);
      AnnouncingStep(after, op, j, c);
      AloneStep(jobs, Writing(op, j), c, 2);
      AloneStep(after, Announcing(op, j), c, 1);
      AloneNone(after, I.ThreadStep(after, Announcing(op, j), c).thread, c);
    } else {
      FinishedStays(jobs, c, 2);
    }
  }

  /** The two storage calls of a rollback on the job it has listed first. */
  lemma WithdrawalSteps(jobs: map<string, Job>, run: string, reason: string, todo: seq<Job>, c: I.Choice)
    requires todo != [] && c.fault == NoFault && c.heard && todo[0].id in jobs
    ensures var j, sweep, rest := todo[0], I.Sweeping(run, reason, c.now, todo), I.Sweeping(run, reason, c.now, todo[1..]);
      var stamp := if jobs[j.id].completedAt.None? then Some(c.now) else None;
      match RollbackTarget(j.status)
      case None => I.ThreadStep(jobs, sweep, c) == I.Effect(jobs, rest, [])
      case Some(next) =>
        var stamping := I.Stamping(run, reason, c.now, j, todo[1..], stamp);
        && I.ThreadStep(jobs, sweep, c) == I.Effect(jobs, stamping, [])
        && I.ThreadStep(jobs, stamping, c)
           == I.Effect(jobs[j.id := JobAfter(jobs[j.id], WRollback(next, reason, stamp))], rest,
                       [WithdrawalEvent(j, run, reason)])
  {
    hide JobAfter;
  }

  /** The machine's step for it. */
  lemma WithdrawalCall(jobs: map<string, Job>, run: string, reason: string, j: Job, now: nat)
    requires run != "" && j.id in jobs && jobs[j.id] == j && j.workflowRunId == run
    ensures var after := L.Apply(L.Sys(jobs, [], now), L.Call(L.Withdraw(j.id, run, reason), 0));
      match RollbackTarget(j.status)
      case None => after.jobs == jobs && after.events == []
      case Some(next) =>
        && after.jobs
           == jobs[j.id := JobAfter(j, WRollback(next, reason, if j.completedAt.None? then Some(now) else None))]
        && after.events == [WithdrawalEvent(j, run, reason)]
  {
    hide JobAfter;
  }

  /** Likewise one job's part of a rollback whose snapshot is still current. */
  lemma UninterruptedWithdrawalIsAtomic(jobs: map<string, Job>, run: string, reason: string, todo: seq<Job>, c: I.Choice)
    requires todo != [] && run != "" && c.fault == NoFault && c.heard
    requires todo[0].id in jobs && jobs[todo[0].id] == todo[0] && todo[0].workflowRunId == run
    ensures var after := L.Apply(L.Sys(jobs, [], c.now), L.Call(L.Withdraw(todo[0].id, run, reason), 0));
      Alone(jobs, I.Sweeping(run, reason, c.now, todo), c, if RollbackTarget(todo[0].status).Some? then 2 else 1)
      == I.Effect(after.jobs, I.Sweeping(run, reason, c.now, todo[1..]), after.events)
  {
    hide Alone;
    hide I.ThreadStep;
    hide L.Apply;
    hide JobAfter;
    var j, sweep, rest := todo[0], I.Sweeping(run, reason, c.now, todo), I.Sweeping(run, reason, c.now, todo[1..]);
    WithdrawalSteps(jobs, run, reason, todo, c);
    WithdrawalCall(jobs, run, reason, j, c.now);
    if RollbackTarget(j.status).Some? {
      var stamp := if j.completedAt.None? then Some(c.now) else None;
      var stamping := I.Stamping(run, reason, c.now, j, todo[1..], stamp);
      var after := jobs[j.id := JobAfter(j, WRollback(RollbackTarget(j.status).value, reason, stamp))];
      AloneSilent(jobs, sweep, c, 2, jobs, stamping);
      AloneStep(jobs, stamping, c, 1);
      AloneNone(after, rest, c);
    } else {
      AloneSilent(jobs, sweep, c, 1, jobs, rest);
      AloneNone(jobs, rest, c);
    }
  }

  /** A dispatcher's first half, alone: the job is created, started, and both are announced. */
  lemma UninterruptedBegin(jobs: map<string, Job>, f: string, trigger: string, payload: string, taskId: string,
                           run: string, c: I.Choice)
    requires c.fault == NoFault && c.newId !in jobs
    ensures var created := NewJob(c.newId, I.AGENCY, f, trigger, payload, taskId, run, c.now);
      var started := created.(status := Running, startedAt := Some(c.now));
      Alone(jobs, I.Creating(f, trigger, payload, taskId, run), c, 5)
      == I.Effect(jobs[c.newId := started], I.Executing(c.newId, run),
                  [LifecycleEvent(JobCreated, created), LifecycleEvent(JobStarted, started)])
  {
    hide Alone;
    hide I.ThreadStep;
    var id := c.newId;
    var created := NewJob(id, I.AGENCY, f, trigger, payload, taskId, run, c.now);
    var started := JobAfter(created, WStart(c.now));
    var a, b := jobs[id := created], jobs[id := started];
    assert a[id := started] == b;
    CreationSteps(jobs, f, trigger, payload, taskId, run, c);
    OpeningStep(a, L.Start(id), c);
    WritingStep(a, L.Start(id), c);
    StartedStep(b, id, run, c);
    AloneStep(jobs, I.Creating(f, trigger, payload, taskId, run), c, 5);
    AloneStep(a, I.AnnounceCreated(id), c, 4);
    AloneStep(a, I.StartGuard(id), c, 3);
    AloneStep(a, I.StartWrite(id), c, 2);
    AloneStep(b, I.AnnounceStarted(id, run), c, 1);
    AloneNone(b, I.Executing(id, run), c);
  }

  lemma CreationSteps(jobs: map<string, Job>, f: string, trigger: string, payload: string, taskId: string, run: string,
                      c: I.Choice)
    requires c.fault == NoFault && c.newId !in jobs
    ensures var created := NewJob(c.newId, I.AGENCY, f, trigger, payload, taskId, run, c.now);
      var after := jobs[c.newId := created];
      && I.ThreadStep(jobs, I.Creating(f, trigger, payload, taskId, run), c)
         == I.Effect(after, I.AnnounceCreated(c.newId), [])
      && I.ThreadStep(after, I.AnnounceCreated(c.newId), c)
         == I.Effect(after, I.StartGuard(c.newId), [LifecycleEvent(JobCreated, created)])
  {}

  lemma StartedStep(jobs: map<string, Job>, id: string, run: string, c: I.Choice)
    requires c.fault == NoFault && id in jobs
    ensures I.ThreadStep(jobs, I.AnnounceStarted(id, run), c)
         == I.Effect(jobs, I.Executing(id, run), [LifecycleEvent(JobStarted, jobs[id])])
  {}

  /** Its second half, alone: the job ends as the dispatcher's own contract says, with the same event. */
  lemma UninterruptedFinish(jobs: map<string, Job>, id: string, c: I.Choice)
    requires c.fault == NoFault && id in jobs && jobs[id].status == Running && jobs[id].retryCount == 0
    ensures var final := Receiver.DispatchedJob(jobs[id], c.output, c.now);
      Alone(jobs, I.Executing(id, jobs[id].workflowRunId), c, 6)
      == I.Effect(jobs[id := final], I.Finished,
                  if final.status == Completed then [LifecycleEvent(JobCompleted, final)] else [])
  {
    hide Alone;
    hide I.ThreadStep;
    var run := jobs[id].workflowRunId;
    RunStep(jobs, id, run, c);
    AloneSilent(jobs, I.Executing(id, run), c, 6, jobs, I.AfterRun(id, run, c.output));
    match c.output
    case RunError(msg) => FailsAlone(jobs, id, msg, c);
    case Ran(isError, result, error, minted) =>
      if isError {
        FailsAlone(jobs, id, error, c);
      } else if run == "" && minted != "" {
        var bound := jobs[id := JobAfter(jobs[id], WBindRun(minted))];
        BindSteps(jobs, id, minted, result, c);
        AloneSilent(jobs, I.BindGuard(id, minted, result), c, 5, jobs, I.BindWrite(id, minted, result));
        AloneSilent(jobs, I.BindWrite(id, minted, result), c, 4, bound, I.CompleteGuard(id, result));
        CompletesAlone(bound, id, result, c, 3);
        assert bound[id := JobAfter(bound[id], WComplete(result, c.now))]
            == jobs[id := JobAfter(bound[id], WComplete(result, c.now))];
      } else {
        CompletesAlone(jobs, id, result, c, 5);
      }
  }

  lemma RunStep(jobs: map<string, Job>, id: string, run: string, c: I.Choice)
    ensures I.ThreadStep(jobs, I.Executing(id, run), c) == I.Effect(jobs, I.AfterRun(id, run, c.output), [])
  {}

  lemma BindSteps(jobs: map<string, Job>, id: string, minted: string, result: string, c: I.Choice)
    requires c.fault == NoFault && id in jobs
    ensures I.ThreadStep(jobs, I.BindGuard(id, minted, result), c) == I.Effect(jobs, I.BindWrite(id, minted, result), [])
    ensures I.ThreadStep(jobs, I.BindWrite(id, minted, result), c)
         == I.Effect(jobs[id := JobAfter(jobs[id], WBindRun(minted))], I.CompleteGuard(id, result), [])
  {}

  lemma FailsAlone(jobs: map<string, Job>, id: string, msg: string, c: I.Choice)
    requires c.fault == NoFault && id in jobs && jobs[id].status == Running && jobs[id].retryCount == 0
    ensures Alone(jobs, I.FailGuard(id, msg), c, 5)
         == I.Effect(jobs[id := JobAfter(jobs[id], WFail(1, msg, c.now))], I.Finished, [])
  {
    hide Alone;
    hide I.ThreadStep;
    var failed := jobs[id := JobAfter(jobs[id], WFail(1, msg, c.now))];
    OpeningStep(jobs, L.Fail(id, msg), c);
    WritingStep(jobs, L.Fail(id, msg), c);
    AloneSilent(jobs, I.FailGuard(id, msg), c, 5, jobs, I.FailWrite(id, msg, 1));
    AloneSilent(jobs, I.FailWrite(id, msg, 1), c, 4, failed, I.Finished);
    FinishedStays(failed, c, 3);
  }

  lemma CompletesAlone(jobs: map<string, Job>, id: string, result: string, c: I.Choice, n: nat)
    requires c.fault == NoFault && id in jobs && jobs[id].status == Running && n >= 3
    ensures var final := JobAfter(jobs[id], WComplete(result, c.now));
      Alone(jobs, I.CompleteGuard(id, result), c, n)
      == I.Effect(jobs[id := final], I.Finished, [LifecycleEvent(JobCompleted, final)])
  {
    var ended := jobs[id := JobAfter(jobs[id], WComplete(result, c.now))];
    hide Alone;
    hide I.ThreadStep;
    OpeningStep(jobs, L.Complete(id, result), c);
    WritingStep(jobs, L.Complete(id, result), c);
    CompletedStep(ended, id, c);
    AloneSilent(jobs, I.CompleteGuard(id, result), c, n, jobs, I.CompleteWrite(id, result));
    AloneSilent(jobs, I.CompleteWrite(id, result), c, n - 1, ended, I.AnnounceCompleted(id));
    AloneStep(ended, I.AnnounceCompleted(id), c, n - 2);
    FinishedStays(ended, c, n - 3);
  }

  lemma CompletedStep(jobs: map<string, Job>, id: string, c: I.Choice)
    requires c.fault == NoFault && id in jobs
    ensures I.ThreadStep(jobs, I.AnnounceCompleted(id), c)
         == I.Effect(jobs, I.Finished, [LifecycleEvent(JobCompleted, jobs[id])])
  {}

  // ---------- failing storage calls ----------

  /** A write whose call failed has happened or not. */
  predicate WrittenIf(jobs: map<string, Job>, after: map<string, Job>, id: string, w: Write, fault: Fault) {
    && id in jobs
    && after == if fault == AppliedUnacknowledged then jobs[id := JobAfter(jobs[id], w)] else jobs
  }

  /** A read that fails ends its call and what called it; but a failed back-fill is only skipped. */
  lemma FailedReads(jobs: map<string, Job>, id: string, text: string, minted: string, listed: seq<Job>, c: I.Choice)
    requires c.fault != NoFault
    ensures forall t | t in [I.StartGuard(id), I.FailGuard(id, text), I.CompleteGuard(id, text), I.CancelGuard(id),
                             I.Listing(text, minted)] ::
      I.ThreadStep(jobs, t, c) == I.Effect(jobs, I.Finished, [])
    ensures listed != [] && RollbackTarget(listed[0].status).Some? ==>
      I.ThreadStep(jobs, I.Sweeping(text, minted, c.now, listed), c) == I.Effect(jobs, I.Finished, [])
    ensures I.ThreadStep(jobs, I.BindGuard(id, minted, text), c) == I.Effect(jobs, I.CompleteGuard(id, text), [])
  {
    hide JobAfter;
    hide LifecycleEvent;
  }

  /** A guard that rejects ends its call and what called it. */
  lemma RejectedGuards(jobs: map<string, Job>, id: string, text: string, c: I.Choice)
    requires c.fault == NoFault && id in jobs
    ensures jobs[id].status !in {Pending, Retrying} ==> I.ThreadStep(jobs, I.StartGuard(id), c) == I.Effect(jobs, I.Finished, [])
    ensures jobs[id].status !in {Pending, Running} ==> I.ThreadStep(jobs, I.CancelGuard(id), c) == I.Effect(jobs, I.Finished, [])
    ensures jobs[id].status != Running ==>
      && I.ThreadStep(jobs, I.CompleteGuard(id, text), c) == I.Effect(jobs, I.Finished, [])
      && I.ThreadStep(jobs, I.FailGuard(id, text), c) == I.Effect(jobs, I.Finished, [])
  {
    hide JobAfter;
    hide LifecycleEvent;
  }

  /** An update that fails, applied or not, ends its call and what called it without an event; a back-fill is skipped. */
  lemma FailedWrites(jobs: map<string, Job>, t: I.Thread, c: I.Choice)
    requires c.fault != NoFault
    ensures var e := I.ThreadStep(jobs, t, c);
      && (t.StartWrite? && t.id in jobs ==>
            e.thread == I.Finished && e.events == [] && WrittenIf(jobs, e.jobs, t.id, WStart(c.now), c.fault))
      && (t.FailWrite? && t.id in jobs ==>
            e.thread == I.Finished && e.events == [] && WrittenIf(jobs, e.jobs, t.id, WFail(t.count, t.msg, c.now), c.fault))
      && (t.CompleteWrite? && t.id in jobs ==>
            e.thread == I.Finished && e.events == [] && WrittenIf(jobs, e.jobs, t.id, WComplete(t.result, c.now), c.fault))
      && (t.CancelWrite? && t.target in jobs ==>
            e.thread == I.Finished && e.events == [] && WrittenIf(jobs, e.jobs, t.target, WCancel(c.now), c.fault))
      && (t.BindWrite? && t.id in jobs ==>
            e.thread == I.CompleteGuard(t.id, t.result) && e.events == []
            && WrittenIf(jobs, e.jobs, t.id, WBindRun(t.minted), c.fault))
      && (t.Stamping? && t.job.id in jobs && RollbackTarget(t.job.status).Some? ==>
            e.thread == I.Finished && e.events == []
            && WrittenIf(jobs, e.jobs, t.job.id, WRollback(RollbackTarget(t.job.status).value, t.reason, t.stamp), c.fault))
  {
    hide JobAfter;
    hide LifecycleEvent;
    hide WithdrawalEvent;
  }
}
