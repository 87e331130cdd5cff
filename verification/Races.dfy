/**
 * What overtaking writes do to a job that has ended: exactly when it can still be announced
 * again, change its status against its ending, or lose its completion time.
 */
module Races {
  import opened Common
  import opened Jobs
  import opened Interleaving

  // ---------- what a rollback still holds ----------

  const IN_FLIGHT := {Pending, Running, Retrying}
  const WITHDRAWABLE := {Pending, Running, Retrying, Completed, Failed}

  /** The listed jobs that a rollback has still to deal with, the one it is writing first. */
  function Held(t: Thread): seq<Job> {
    match t
    case Sweeping(_, _, _, todo) => todo
    case Stamping(_, _, _, job, todo, _) => if RollbackTarget(job.status).Some? then [job] + todo else []
    case _ => []
  }

  /** A rollback still holds the job, listed in one of these statuses. */
  ghost predicate Holds(t: Thread, id: string, listed: set<JobStatus>) {
    exists i | 0 <= i < |Held(t)| :: Held(t)[i].id == id && Held(t)[i].status in listed
  }

  lemma HeldAfterDispatchStep(jobs: JobTable, t: Thread, c: Choice)
    ensures var next := DispatchStep(jobs, t, c).thread; Held(next) == [] || next == t
  {
    hide JobAfter;
    hide LifecycleEvent;
    if t.Executing? { assert Held(AfterRun(t.id, t.run, c.output)) == []; }
  }

  lemma HeldAfterRollbackStep(jobs: JobTable, t: Thread, c: Choice)
    ensures var next := RollbackStep(jobs, t, c).thread;
      || Held(next) == [] || Held(next) == Held(t)
      || (Held(t) != [] && Held(next) == Held(t)[1..])
      || (t.Listing? && IsListing(jobs, t.wanted, c.listing) && Held(next) == c.listing)
  {
    hide IsListing;
    hide JobAfter;
    hide WithdrawalEvent;
  }

  lemma ListedIsStored(jobs: JobTable, run: string, js: seq<Job>)
    requires IsListing(jobs, run, js)
    ensures forall i | 0 <= i < |js| :: js[i].id in jobs && jobs[js[i].id] == js[i]
  {}

  /** A rollback lets jobs go, and takes on only what it lists as stored. */
  lemma HeldAfterStep(jobs: JobTable, t: Thread, c: Choice)
    ensures var held := Held(ThreadStep(jobs, t, c).thread);
      || held == []
      || held == Held(t)
      || (Held(t) != [] && held == Held(t)[1..])
      || forall i | 0 <= i < |held| :: held[i].id in jobs && jobs[held[i].id] == held[i]
  {
    HeldAfterDispatchStep(jobs, t, c);
    HeldAfterRollbackStep(jobs, t, c);
    if t.Listing? && IsListing(jobs, t.wanted, c.listing) { ListedIsStored(jobs, t.wanted, c.listing); }
    hide DispatchStep;
    hide RollbackStep;
    hide IsListing;
  }

  lemma HoldsAfterStep(jobs: JobTable, t: Thread, c: Choice, id: string, listed: set<JobStatus>)
    requires id in jobs && jobs[id].status !in listed && !Holds(t, id, listed)
    ensures !Holds(ThreadStep(jobs, t, c).thread, id, listed)
  {
    hide ThreadStep;
    HeldAfterStep(jobs, t, c);
    var held := Held(ThreadStep(jobs, t, c).thread);
    forall i | 0 <= i < |held| && held[i].id == id ensures held[i].status !in listed {
      if held == Held(t) {
        assert Held(t)[i].id == id;
      } else if Held(t) != [] && held == Held(t)[1..] {
        assert Held(t)[i + 1].id == id;
      }
    }
  }

  /** A rollback that is not yet writing its i-th held job gets one job or one call further. */
  lemma WalkStep(jobs: JobTable, t: Thread, i: nat)
    requires ThreadOk(jobs, t) && i < |Held(t)| && RollbackTarget(Held(t)[i].status).Some? && (t.Sweeping? || i > 0)
    ensures var next := ThreadStep(jobs, t, Quiet).thread;
      || (t.Sweeping? && next.Stamping? && Held(next) == Held(t))
      || (i > 0 && Held(next) == Held(t)[1..])
  {
    hide JobAfter;
  }

  lemma {:induction false} AfterBoth(s: State, a: seq<Action>, b: seq<Action>)
    ensures After(s, a + b) == After(After(s, a), b)
  {
    if b == [] {
      assert a + b == a;
    } else {
      assert (a + b)[..|a + b| - 1] == a + b[..|b| - 1];
      AfterBoth(s, a, b[..|b| - 1]);
    }
  }

  lemma AfterOne(s: State, a: Action)
    ensures After(s, [a]) == Next(s, a)
  {
    assert [a][..0] == [];
  }

  /** An undisturbed rollback comes to write each job it holds, with the status it listed. */
  lemma {:induction false} Walk(s: State, tid: nat, i: nat) returns (actions: seq<Action>)
    requires Inv(s) && tid < |s.threads|
    requires i < |Held(s.threads[tid])| && RollbackTarget(Held(s.threads[tid])[i].status).Some?
    ensures var s' := After(s, actions);
      && Inv(s') && tid < |s'.threads|
      && s'.threads[tid].Stamping? && s'.threads[tid].job == Held(s.threads[tid])[i]
      && s.events <= s'.events
    decreases i, if s.threads[tid].Sweeping? then 1 else 0
  {
    var t := s.threads[tid];
    if t.Stamping? && i == 0 { return []; }
    hide Inv;
    hide ThreadStep;
    hide ThreadOk;
    assert ThreadOk(s.jobs, t) by { InvThread(s, tid); }
    var step := Step(tid, Quiet);
    var s1 := Next(s, step);
    InvNext(s, step);
    WalkStep(s.jobs, t, i);
    AfterOne(s, step);
    var rest;
    if Held(s1.threads[tid]) == Held(t) && s1.threads[tid].Stamping? {
      rest := Walk(s1, tid, i);
    } else {
      rest := Walk(s1, tid, i - 1);
    }
    AfterBoth(s, [step], rest);
    actions := [step] + rest;
  }

  lemma InvThread(s: State, tid: nat)
    requires Inv(s) && tid < |s.threads|
    ensures ThreadOk(s.jobs, s.threads[tid])
  {}

  // ---------- when a withdrawn job is announced again ----------

  /** How often a withdrawal of the job has been announced. */
  function Withdrawals(events: seq<Event>, id: string): nat {
    if events == [] then 0
    else
      var last := events[|events| - 1];
      Withdrawals(events[..|events| - 1], id) + (if last.Withdrawal? && last.jobId == id then 1 else 0)
  }

  lemma WithdrawalsAppend(events: seq<Event>, more: seq<Event>, id: string)
    requires |more| <= 1
    ensures Withdrawals(events + more, id)
         == Withdrawals(events, id) + (if more != [] && more[0].Withdrawal? && more[0].jobId == id then 1 else 0)
  {
    if more == [] { assert events + more == events; }
    else { assert (events + more)[..|events|] == events; }
  }

  lemma {:induction false} WithdrawalsGrow(events: seq<Event>, all: seq<Event>, id: string)
    requires events <= all
    ensures Withdrawals(events, id) <= Withdrawals(all, id)
  {
    if |events| < |all| {
      var init := all[..|all| - 1];
      WithdrawalsGrow(events, init, id);
    } else {
      assert events == all;
    }
  }

  /** Only a rollback that writes a job it holds tells of a withdrawal. */
  lemma StepTells(jobs: JobTable, t: Thread, c: Choice)
    ensures var e := ThreadStep(jobs, t, c);
      && |e.events| <= 1
      && (e.events != [] && e.events[0].Withdrawal? ==>
            t.Stamping? && Held(t) != [] && Held(t)[0] == t.job && e.events[0].jobId == t.job.id
            && t.job.status in WITHDRAWABLE)
  {
    hide JobAfter;
  }

  /** Withdrawn for good, and no rollback is left to withdraw the job once more. */
  ghost predicate LetGo(s: State, id: string) {
    && IsWithdrawn(s, id) && NonePoised(s, id)
    && forall i | 0 <= i < |s.threads| :: !Holds(s.threads[i], id, WITHDRAWABLE)
  }

  lemma LetGoNext(s: State, a: Action, id: string)
    requires LetGo(s, id)
    ensures LetGo(Next(s, a), id) && Withdrawals(Next(s, a).events, id) == Withdrawals(s.events, id)
  {
    if a.Step? && a.tid < |s.threads| {
      hide ThreadStep;
      var t := s.threads[a.tid];
      WithdrawalIsClosed(s.jobs, t, a.choice, id);
      HoldsAfterStep(s.jobs, t, a.choice, id, WITHDRAWABLE);
      StepTells(s.jobs, t, a.choice);
      WithdrawalsAppend(s.events, ThreadStep(s.jobs, t, a.choice).events, id);
    }
  }

  lemma {:induction false} LetGoStays(s: State, actions: seq<Action>, id: string)
    requires LetGo(s, id)
    ensures LetGo(After(s, actions), id) && Withdrawals(After(s, actions).events, id) == Withdrawals(s.events, id)
  {
    if actions != [] {
      LetGoStays(s, actions[..|actions| - 1], id);
      LetGoNext(After(s, actions[..|actions| - 1]), actions[|actions| - 1], id);
    }
  }

  /** The write of a job that a rollback has re-read, unless it is lost. */
  lemma StampStep(jobs: JobTable, t: Thread, c: Choice)
    requires t.Stamping? && t.job.id in jobs && RollbackTarget(t.job.status).Some? && c.fault == NoFault && c.heard
    ensures var e := ThreadStep(jobs, t, c);
      && t.job.id in e.jobs
      && e.jobs[t.job.id].status == RollbackTarget(t.job.status).value
      && e.jobs[t.job.id].completedAt == (if t.stamp.Some? then t.stamp else jobs[t.job.id].completedAt)
      && e.events == [WithdrawalEvent(t.job, t.wanted, t.reason)]
  {}

  /** A rollback that holds a job comes to write and announce it. */
  lemma HeldIsWritten(s: State, tid: nat, id: string, listed: set<JobStatus>) returns (actions: seq<Action>, j: Job)
    requires Inv(s) && tid < |s.threads| && Holds(s.threads[tid], id, listed) && listed <= WITHDRAWABLE
    ensures j.id == id && j.status in listed && RollbackTarget(j.status).Some?
    ensures var s' := After(s, actions);
      && id in s'.jobs && s'.jobs[id].status == RollbackTarget(j.status).value
      && Withdrawals(s'.events, id) > Withdrawals(s.events, id)
  {
    var i :| 0 <= i < |Held(s.threads[tid])| && Held(s.threads[tid])[i].id == id && Held(s.threads[tid])[i].status in listed;
    j := Held(s.threads[tid])[i];
    assert j.status in WITHDRAWABLE;
    var past := Walk(s, tid, i);
    hide ThreadStep;
    hide Held;
    var m, step := After(s, past), Step(tid, Quiet);
    InvThread(m, tid);
    StampStep(m.jobs, m.threads[tid], Quiet);
    WithdrawalsGrow(s.events, m.events, id);
    WithdrawalsAppend(m.events, [WithdrawalEvent(j, m.threads[tid].wanted, m.threads[tid].reason)], id);
    AfterBoth(s, past, [step]);
    AfterOne(m, step);
    actions := past + [step];
  }

  /**
   * A job withdrawn for good is never announced again, in any continuation, if and only if no
   * rollback still holds it as it was listed before.
   */
  lemma AnnouncementIsFinalIff(s: State, id: string)
    requires Inv(s) && IsWithdrawn(s, id) && NonePoised(s, id)
    ensures (forall actions :: Withdrawals(After(s, actions).events, id) == Withdrawals(s.events, id))
       <==> (forall i | 0 <= i < |s.threads| :: !Holds(s.threads[i], id, WITHDRAWABLE))
  {
    if tid :| 0 <= tid < |s.threads| && Holds(s.threads[tid], id, WITHDRAWABLE) {
      var actions, _ := HeldIsWritten(s, tid, id, WITHDRAWABLE);
      assert Withdrawals(After(s, actions).events, id) != Withdrawals(s.events, id);
    } else {
      forall actions ensures Withdrawals(After(s, actions).events, id) == Withdrawals(s.events, id) {
        LetGoStays(s, actions, id);
      }
    }
  }

  // ---------- when a completed or failed job stays so, or is rolled back ----------

  /** A call has passed its guard, and its write of the job would undo the job's ending in `ended`. */
  predicate GuardPassed(t: Thread, id: string, ended: JobStatus) {
    || t == CancelWrite(id)
    || t == StartWrite(id)
    || (t.CompleteWrite? && t.id == id && ended != Completed)
    || (t.FailWrite? && t.id == id && FailStatus(t.count) != ended)
  }

  /** The thread has passed a guard, or made a listing, that the job's ending has since overtaken. */
  ghost predicate Threatens(t: Thread, id: string, ended: JobStatus) {
    GuardPassed(t, id, ended) || Holds(t, id, IN_FLIGHT)
  }

  ghost predicate KeepsEnding(jobs: JobTable, id: string, ended: JobStatus) {
    id in jobs && jobs[id].status in {ended, RolledBack}
  }

  lemma DispatchKeepsEnding(jobs: JobTable, t: Thread, c: Choice, id: string, ended: JobStatus)
    requires ended in {Completed, Failed} && KeepsEnding(jobs, id, ended) && !GuardPassed(t, id, ended)
    ensures var e := DispatchStep(jobs, t, c); KeepsEnding(e.jobs, id, ended) && !GuardPassed(e.thread, id, ended)
  {
    hide LifecycleEvent;
  }

  lemma CancelKeepsEnding(jobs: JobTable, t: Thread, c: Choice, id: string, ended: JobStatus)
    requires ended in {Completed, Failed} && KeepsEnding(jobs, id, ended) && !GuardPassed(t, id, ended)
    ensures var e := CancelStep(jobs, t, c); KeepsEnding(e.jobs, id, ended) && !GuardPassed(e.thread, id, ended)
  {}

  lemma RollbackKeepsEnding(jobs: JobTable, t: Thread, c: Choice, id: string, ended: JobStatus)
    requires ended in {Completed, Failed} && KeepsEnding(jobs, id, ended)
    requires !GuardPassed(t, id, ended) && !Holds(t, id, IN_FLIGHT)
    ensures var e := RollbackStep(jobs, t, c); KeepsEnding(e.jobs, id, ended) && !GuardPassed(e.thread, id, ended)
  {
    hide WithdrawalEvent;
    hide IsListing;
    if t.Stamping? && t.job.id == id && RollbackTarget(t.job.status).Some? { assert Held(t)[0] == t.job; }
  }

  lemma EndingStep(jobs: JobTable, t: Thread, c: Choice, id: string, ended: JobStatus)
    requires ended in {Completed, Failed} && KeepsEnding(jobs, id, ended) && !Threatens(t, id, ended)
    ensures KeepsEnding(ThreadStep(jobs, t, c).jobs, id, ended)
    ensures !Threatens(ThreadStep(jobs, t, c).thread, id, ended)
  {
    HoldsAfterStep(jobs, t, c, id, IN_FLIGHT);
    DispatchKeepsEnding(jobs, t, c, id, ended);
    CancelKeepsEnding(jobs, t, c, id, ended);
    RollbackKeepsEnding(jobs, t, c, id, ended);
    hide DispatchStep;
    hide CancelStep;
    hide RollbackStep;
    hide Holds;
    hide GuardPassed;
    hide KeepsEnding;
  }

  lemma {:induction false} EndingStays(s: State, actions: seq<Action>, id: string, ended: JobStatus)
    requires ended in {Completed, Failed} && KeepsEnding(s.jobs, id, ended)
    requires forall i | 0 <= i < |s.threads| :: !Threatens(s.threads[i], id, ended)
    ensures var s' := After(s, actions);
      KeepsEnding(s'.jobs, id, ended) && forall i | 0 <= i < |s'.threads| :: !Threatens(s'.threads[i], id, ended)
  {
    if actions != [] {
      var m, last := After(s, actions[..|actions| - 1]), actions[|actions| - 1];
      EndingStays(s, actions[..|actions| - 1], id, ended);
      hide ThreadStep;
      if last.Step? && last.tid < |m.threads| { EndingStep(m.jobs, m.threads[last.tid], last.choice, id, ended); }
    }
  }

  lemma GuardedWriteHappens(jobs: JobTable, t: Thread, id: string, ended: JobStatus)
    requires id in jobs && ended in {Completed, Failed} && GuardPassed(t, id, ended)
    ensures !KeepsEnding(ThreadStep(jobs, t, Quiet).jobs, id, ended)
  {
    hide LifecycleEvent;
  }

  lemma ThreatHappens(s: State, tid: nat, id: string, ended: JobStatus) returns (actions: seq<Action>)
    requires Inv(s) && id in s.jobs && ended in {Completed, Failed}
    requires tid < |s.threads| && Threatens(s.threads[tid], id, ended)
    ensures !KeepsEnding(After(s, actions).jobs, id, ended)
  {
    var t := s.threads[tid];
    if Holds(t, id, IN_FLIGHT) {
      var j;
      actions, j := HeldIsWritten(s, tid, id, IN_FLIGHT);
    } else {
      GuardedWriteHappens(s.jobs, t, id, ended);
      hide ThreadStep;
      AfterOne(s, Step(tid, Quiet));
      actions := [Step(tid, Quiet)];
    }
  }

  /**
   * A completed job stays completed or is rolled back, and a failed one likewise, in every
   * continuation, if and only if no cancellation, start or contrary outcome has passed its guard
   * and no rollback holds the job as in flight.
   */
  lemma EndingIsKeptIff(s: State, id: string)
    requires Inv(s) && id in s.jobs && s.jobs[id].status in {Completed, Failed}
    ensures (forall actions :: KeepsEnding(After(s, actions).jobs, id, s.jobs[id].status))
       <==> (forall i | 0 <= i < |s.threads| :: !Threatens(s.threads[i], id, s.jobs[id].status))
  {
    var ended := s.jobs[id].status;
    if tid :| 0 <= tid < |s.threads| && Threatens(s.threads[tid], id, ended) {
      var actions := ThreatHappens(s, tid, id, ended);
    } else {
      forall actions ensures KeepsEnding(After(s, actions).jobs, id, ended) { EndingStays(s, actions, id, ended); }
    }
  }

  // ---------- when an ended job keeps its completion time ----------

  /** The thread's next write sets another completion time, or lets some call do so. */
  predicate Restamps(t: Thread, id: string, at: nat) {
    || t == CancelWrite(id)
    || t == StartWrite(id)
    || (t.CompleteWrite? && t.id == id)
    || (t.FailWrite? && t.id == id && FailStatus(t.count) == Failed)
    || (t.Stamping? && t.job.id == id && RollbackTarget(t.job.status).Some? && t.stamp.Some? && t.stamp != Some(at))
  }

  ghost predicate TimeIs(jobs: JobTable, id: string, at: nat) { id in jobs && jobs[id].completedAt == Some(at) }

  /** The time is set, and the job has ended, or retries with no dispatcher left to start it. */
  ghost predicate TimeHolds(jobs: JobTable, id: string, at: nat) {
    && TimeIs(jobs, id, at)
    && (Terminal(jobs[id].status) || jobs[id].status == Retrying)
  }

  lemma DispatchKeepsTime(jobs: JobTable, t: Thread, c: Choice, id: string, at: nat)
    requires TimeHolds(jobs, id, at) && !Restamps(t, id, at)
    requires jobs[id].status == Retrying ==> Owner(t) != Some(id)
    ensures var e := DispatchStep(jobs, t, c);
      && TimeHolds(e.jobs, id, at) && !Restamps(e.thread, id, at)
      && (e.jobs[id].status == Retrying && jobs[id].status != Retrying ==> Owner(t) == Some(id) && Owner(e.thread).None?)
  {
    hide LifecycleEvent;
  }

  lemma CancelKeepsTime(jobs: JobTable, t: Thread, c: Choice, id: string, at: nat)
    requires TimeHolds(jobs, id, at) && !Restamps(t, id, at)
    ensures var e := CancelStep(jobs, t, c);
      TimeHolds(e.jobs, id, at) && e.jobs[id] == jobs[id] && !Restamps(e.thread, id, at)
  {}

  lemma RollbackKeepsTime(jobs: JobTable, t: Thread, c: Choice, id: string, at: nat)
    requires TimeHolds(jobs, id, at) && !Restamps(t, id, at)
    ensures var e := RollbackStep(jobs, t, c);
      && TimeHolds(e.jobs, id, at) && !Restamps(e.thread, id, at)
      && (e.jobs[id].status == Retrying ==> jobs[id].status == Retrying)
  {
    hide WithdrawalEvent;
    hide IsListing;
  }

  lemma TimeStep(jobs: JobTable, t: Thread, c: Choice, id: string, at: nat)
    requires TimeHolds(jobs, id, at) && !Restamps(t, id, at)
    requires jobs[id].status == Retrying ==> Owner(t) != Some(id)
    ensures var e := ThreadStep(jobs, t, c);
      && TimeHolds(e.jobs, id, at) && !Restamps(e.thread, id, at)
      && (e.jobs[id].status == Retrying && jobs[id].status != Retrying ==> Owner(t) == Some(id) && Owner(e.thread).None?)
  {
    DispatchKeepsTime(jobs, t, c, id, at);
    CancelKeepsTime(jobs, t, c, id, at);
    RollbackKeepsTime(jobs, t, c, id, at);
    hide DispatchStep;
    hide CancelStep;
    hide RollbackStep;
    hide Restamps;
  }

  ghost predicate TimeSafe(s: State, id: string, at: nat) {
    && TimeHolds(s.jobs, id, at)
    && (forall i | 0 <= i < |s.threads| :: !Restamps(s.threads[i], id, at))
    && (s.jobs[id].status == Retrying ==> forall i | 0 <= i < |s.threads| :: Owner(s.threads[i]) != Some(id))
  }

  lemma TimeSafeNext(s: State, a: Action, id: string, at: nat)
    requires Inv(s) && TimeSafe(s, id, at)
    ensures TimeSafe(Next(s, a), id, at)
  {
    if a.Step? && a.tid < |s.threads| {
      hide ThreadStep;
      hide Restamps;
      var t := s.threads[a.tid];
      TimeStep(s.jobs, t, a.choice, id, at);
      OwnerAfterStep(s.jobs, t, a.choice);
      assert forall i | 0 <= i < |s.threads| && i != a.tid :: Owner(t) == Some(id) ==> Owner(s.threads[i]) != Some(id);
    }
  }

  lemma {:induction false} TimeStaysSafe(s: State, actions: seq<Action>, id: string, at: nat)
    requires Inv(s) && TimeSafe(s, id, at)
    ensures Inv(After(s, actions)) && TimeSafe(After(s, actions), id, at)
  {
    if actions != [] {
      var m, last := After(s, actions[..|actions| - 1]), actions[|actions| - 1];
      TimeStaysSafe(s, actions[..|actions| - 1], id, at);
      InvNext(m, last);
      TimeSafeNext(m, last, id, at);
    }
  }

  /** Some continuation gives the job another completion time. */
  lemma RestampHappens(s: State, tid: nat, id: string, at: nat) returns (actions: seq<Action>)
    requires Inv(s) && id in s.jobs && tid < |s.threads| && Restamps(s.threads[tid], id, at)
    ensures !TimeIs(After(s, actions).jobs, id, at)
  {
    var later := Quiet.(now := at + 1);
    var step, m := Step(tid, later), Next(s, Step(tid, later));
    AfterOne(s, step);
    actions := [step];
    if s.threads[tid].StartWrite? {
      var n := |m.threads|;
      var cancel, write := Spawn(CancelGuard(id)), Step(n, later);
      CancelLater(m, id, later);
      AfterThree(m, cancel, write, write);
      AfterBoth(s, [step], [cancel, write, write]);
      actions := [step] + [cancel, write, write];
    }
  }

  lemma AfterThree(s: State, a: Action, b: Action, c: Action)
    ensures After(s, [a, b, c]) == Next(Next(Next(s, a), b), c)
  {
    AfterOne(s, a);
    assert [a] + [b] == [a, b] && [a, b] + [c] == [a, b, c];
    AfterBoth(s, [a], [b]);
    AfterOne(Next(s, a), b);
    AfterBoth(s, [a, b], [c]);
    AfterOne(Next(Next(s, a), b), c);
  }

  /** A whole cancellation, at a given second. */
  lemma CancelLater(s: State, id: string, c: Choice)
    requires id in s.jobs && s.jobs[id].status in {Pending, Running} && c.fault == NoFault
    ensures var spawn, step := Spawn(CancelGuard(id)), Step(|s.threads|, c);
      var guarded := s.(threads := s.threads + [CancelWrite(id)]);
      && Next(Next(s, spawn), step) == guarded
      && Next(guarded, step).jobs == s.jobs[id := JobAfter(s.jobs[id], WCancel(c.now))]
      && Next(guarded, step).events == s.events
  {
    var n := |s.threads|;
    assert (s.threads + [CancelGuard(id)])[n := CancelWrite(id)] == s.threads + [CancelWrite(id)];
    assert s.events + [] == s.events;
  }

  /**
   * An ended job keeps its completion time in every continuation if and only if no write of it
   * is outstanding that starts, completes, fails or cancels it, and no rollback is about to write
   * another time that it chose when the job had none.
   */
  lemma CompletionTimeIsKeptIff(s: State, id: string, at: nat)
    requires Inv(s) && TimeIs(s.jobs, id, at) && Terminal(s.jobs[id].status)
    ensures (forall actions :: TimeIs(After(s, actions).jobs, id, at))
       <==> (forall i | 0 <= i < |s.threads| :: !Restamps(s.threads[i], id, at))
  {
    if tid :| 0 <= tid < |s.threads| && Restamps(s.threads[tid], id, at) {
      var actions := RestampHappens(s, tid, id, at);
      assert !TimeIs(After(s, actions).jobs, id, at);
    } else {
      forall actions ensures TimeIs(After(s, actions).jobs, id, at) { TimeStaysSafe(s, actions, id, at); }
    }
  }

  // ---------- runs in which these happen ----------

  /** A started job, about to be completed, of the given run. */
  lemma ToCompletion(workflowRun: string) returns (run: seq<Action>, j: Job)
    ensures var s := After(Init, run);
      && IsListing(s.jobs, workflowRun, [j]) && j.status == Running && j.completedAt.None?
      && s.threads == [CompleteWrite(j.id, "")]
  {
    run := ToStartWrite(workflowRun);
    hide ThreadStep;
    var s := After(Init, run);
    QuietStart(s.jobs, "j", workflowRun);
    j := JobAfter(s.jobs["j"], WStart(0));
    AfterBoth(Init, run, [Step(0, Quiet)]);
    AfterOne(s, Step(0, Quiet));
    run := run + [Step(0, Quiet)];
    assert After(Init, run).jobs == s.jobs["j" := j];
    run := ToCompleteWrite(run);
    assert [j][0] == j;
  }

  lemma ListingSteps(jobs: JobTable, workflowRun: string, j: Job)
    requires workflowRun != "" && IsListing(jobs, workflowRun, [j])
    requires j.id in jobs && jobs[j.id] == j && j.status == Running && j.completedAt.None?
    ensures ThreadStep(jobs, Listing(workflowRun, ""), Quiet.(listing := [j]))
         == Effect(jobs, Sweeping(workflowRun, "", 0, [j]), [])
    ensures ThreadStep(jobs, Sweeping(workflowRun, "", 0, [j]), Quiet)
         == Effect(jobs, Stamping(workflowRun, "", 0, j, [], Some(0)), [])
  {
    assert [j][1..] == [];
  }

  /** The states in which a rollback lists a run's only job, running, and re-reads it. */
  lemma ListingStates(s: State, workflowRun: string, j: Job)
    requires workflowRun != "" && IsListing(s.jobs, workflowRun, [j])
    requires j.id in s.jobs && s.jobs[j.id] == j && j.status == Running && j.completedAt.None?
    ensures var n, listed := |s.threads|, Quiet.(listing := [j]);
      Next(Next(Next(s, Spawn(Listing(workflowRun, ""))), Step(n, listed)), Step(n, Quiet))
      == s.(threads := s.threads + [Stamping(workflowRun, "", 0, j, [], Some(0))])
  {
    hide ThreadStep;
    ListingSteps(s.jobs, workflowRun, j);
    var n := |s.threads|;
    assert (s.threads + [Listing(workflowRun, "")])[n := Sweeping(workflowRun, "", 0, [j])]
        == s.threads + [Sweeping(workflowRun, "", 0, [j])];
    assert (s.threads + [Sweeping(workflowRun, "", 0, [j])])[n := Stamping(workflowRun, "", 0, j, [], Some(0))]
        == s.threads + [Stamping(workflowRun, "", 0, j, [], Some(0))];
    assert s.events + [] == s.events;
  }

  /** A rollback comes to be about to write the run's only job, which it has listed as running. */
  lemma RollbackReReads(past: seq<Action>, workflowRun: string, j: Job) returns (run: seq<Action>)
    requires workflowRun != "" && IsListing(After(Init, past).jobs, workflowRun, [j])
    requires j.status == Running && j.completedAt.None?
    ensures var s := After(Init, past);
      After(Init, run) == s.(threads := s.threads + [Stamping(workflowRun, "", 0, j, [], Some(0))])
  {
    hide Next;
    var s, n := After(Init, past), |After(Init, past).threads|;
    assert [j][0] == j && s.jobs[j.id] == j;
    ListingStates(s, workflowRun, j);
    var more := [Spawn(Listing(workflowRun, "")), Step(n, Quiet.(listing := [j])), Step(n, Quiet)];
    AfterThree(s, more[0], more[1], more[2]);
    AfterBoth(Init, past, more);
    run := past + more;
  }

  /** The n-th thread's write of the job, when it is a rollback's. */
  lemma StampState(s: State, n: nat)
    requires n < |s.threads| && s.threads[n].Stamping? && s.threads[n].job.status == Running && s.threads[n].job.id in s.jobs
    ensures var t, s' := s.threads[n], Next(s, Step(n, Quiet));
      && t.job.id in s'.jobs
      && s'.jobs[t.job.id].status == Cancelled
      && (t.stamp.Some? ==> s'.jobs[t.job.id].completedAt == t.stamp)
      && s'.events == s.events + [WithdrawalEvent(t.job, t.wanted, t.reason)]
      && (forall i | 0 <= i < |s.threads| && i != n :: s'.threads[i] == s.threads[i]) && |s'.threads| == |s.threads|
  {
    StampStep(s.jobs, s.threads[n], Quiet);
    hide ThreadStep;
  }

  /** Two rollbacks of one run that both listed a running job announce its withdrawal twice, without any fault. */
  lemma OverlappingRollbacksAnnounceTwice() returns (run: seq<Action>, id: string)
    ensures Withdrawals(After(Init, run).events, id) >= 2
  {
    var past, j := ToCompletion("w");
    id := j.id;
    run := RollbackReReads(past, "w", j);
    run := RollbackReReads(run, "w", j);
    hide Next;
    hide IsListing;
    var s := After(Init, run);
    assert [j][0] == j && id in s.jobs by { Listed(After(Init, past).jobs, "w", j); }
    StampState(s, 1);
    var m := Next(s, Step(1, Quiet));
    StampState(m, 2);
    var told := WithdrawalEvent(j, "w", "");
    WithdrawalsAppend(s.events, [told], id);
    WithdrawalsAppend(m.events, [told], id);
    AfterOne(s, Step(1, Quiet));
    AfterOne(m, Step(2, Quiet));
    AfterBoth(Init, run, [Step(1, Quiet)]);
    AfterBoth(Init, run + [Step(1, Quiet)], [Step(2, Quiet)]);
    run := run + [Step(1, Quiet)] + [Step(2, Quiet)];
  }

  lemma Listed(jobs: JobTable, workflowRun: string, j: Job)
    requires IsListing(jobs, workflowRun, [j])
    ensures j.id in jobs && jobs[j.id] == j
  {
    assert [j][0] == j;
  }

  /** The dispatcher, thread 0, completes its job at second 5 and announces it. */
  lemma CompletesAtFive(past: seq<Action>, id: string) returns (run: seq<Action>)
    requires var s := After(Init, past); id in s.jobs && s.jobs[id].id == id && |s.threads| > 0 && s.threads[0] == CompleteWrite(id, "")
    ensures var s, s' := After(Init, past), After(Init, run);
      && id in s'.jobs && s'.jobs[id].status == Completed && s'.jobs[id].completedAt == Some(5)
      && |s'.threads| == |s.threads| && (forall i | 0 < i < |s.threads| :: s'.threads[i] == s.threads[i])
      && s'.events != [] && IsCompletion(s'.events[|s'.events| - 1]) && s'.events[|s'.events| - 1].jobId == id
  {
    var s, write, announce := After(Init, past), Step(0, Quiet.(now := 5)), Step(0, Quiet);
    CompletionSteps(s.jobs, id);
    hide ThreadStep;
    AfterBoth(Init, past, [write]);
    AfterOne(s, write);
    AfterBoth(Init, past + [write], [announce]);
    AfterOne(Next(s, write), announce);
    run := past + [write] + [announce];
  }

  lemma CompletionSteps(jobs: JobTable, id: string)
    requires id in jobs
    ensures var after := jobs[id := JobAfter(jobs[id], WComplete("", 5))];
      && ThreadStep(jobs, CompleteWrite(id, ""), Quiet.(now := 5)) == Effect(after, AnnounceCompleted(id), [])
      && ThreadStep(after, AnnounceCompleted(id), Quiet) == Effect(after, Finished, [LifecycleEvent(JobCompleted, after[id])])
  {}

  /**
   * A job that has completed at second 5, and announced it, ends cancelled at second 0, by a
   * rollback of its run that listed it while it ran; the rollback announces that too.
   */
  lemma CompletedJobIsCancelled() returns (completed: seq<Action>, last: Action, id: string)
    ensures var s, s' := After(Init, completed), After(Init, completed + [last]);
      && id in s.jobs && s.jobs[id].status == Completed && s.jobs[id].completedAt == Some(5)
      && s.events != [] && IsCompletion(s.events[|s.events| - 1]) && s.events[|s.events| - 1].jobId == id
      && id in s'.jobs && s'.jobs[id].status == Cancelled && s'.jobs[id].completedAt == Some(0)
      && Withdrawals(s'.events, id) == Withdrawals(s.events, id) + 1
  {
    var past, j := ToCompletion("w");
    id, last := j.id, Step(1, Quiet);
    Listed(After(Init, past).jobs, "w", j);
    IdsAreKeys(past);
    completed := RollbackReReads(past, "w", j);
    completed := CompletesAtFive(completed, id);
    hide Next;
    var s := After(Init, completed);
    StampState(s, 1);
    WithdrawalsAppend(s.events, [WithdrawalEvent(j, "w", "")], id);
    AfterOne(s, last);
    AfterBoth(Init, completed, [last]);
  }

  lemma IdsAreKeys(past: seq<Action>)
    ensures forall id | id in After(Init, past).jobs :: After(Init, past).jobs[id].id == id
  {
    InvAfter(Init, past);
  }

  /** A cancel call comes to be about to write the job. */
  lemma ToCancelWrite(past: seq<Action>, id: string) returns (run: seq<Action>)
    requires id in After(Init, past).jobs && After(Init, past).jobs[id].status in {Pending, Running}
    ensures var s := After(Init, past); After(Init, run) == s.(threads := s.threads + [CancelWrite(id)])
  {
    var s := After(Init, past);
    CancelStates(s, id);
    hide Next;
    var spawn, guard := Spawn(CancelGuard(id)), Step(|s.threads|, Quiet);
    AfterBoth(Init, past, [spawn]);
    AfterOne(s, spawn);
    AfterBoth(Init, past + [spawn], [guard]);
    AfterOne(Next(s, spawn), guard);
    run := past + [spawn] + [guard];
  }

  /** And so it does by a cancel call that passed its guard while the job ran, with no event at all. */
  lemma CompletedJobIsCancelledSilently() returns (completed: seq<Action>, last: Action, id: string)
    ensures var s, s' := After(Init, completed), After(Init, completed + [last]);
      && id in s.jobs && s.jobs[id].status == Completed && s.jobs[id].completedAt == Some(5)
      && s.events != [] && IsCompletion(s.events[|s.events| - 1]) && s.events[|s.events| - 1].jobId == id
      && id in s'.jobs && s'.jobs[id].status == Cancelled && s'.jobs[id].completedAt == Some(0)
      && s'.events == s.events
  {
    var past, j := ToCompletion("w");
    id, last := j.id, Step(1, Quiet);
    Listed(After(Init, past).jobs, "w", j);
    IdsAreKeys(past);
    completed := ToCancelWrite(past, id);
    completed := CompletesAtFive(completed, id);
    hide ThreadStep;
    hide Next;
    hide IsListing;
    var s := After(Init, completed);
    CancelWriteState(s, 1, id);
    AfterOne(s, last);
    AfterBoth(Init, completed, [last]);
  }

  lemma CancelWriteState(s: State, n: nat, id: string)
    requires n < |s.threads| && s.threads[n] == CancelWrite(id) && id in s.jobs
    ensures Next(s, Step(n, Quiet)).jobs == s.jobs[id := JobAfter(s.jobs[id], WCancel(0))]
    ensures Next(s, Step(n, Quiet)).events == s.events
  {
    assert s.events + [] == s.events;
  }
}
