/** The manager over the property-bag store refines the call-atomic machine over typed jobs. */
module Abstraction {
  import opened Common
  import opened Entities
  import opened Jobs
  import R = Rollback
  import M = Manager
  import L = Lifecycle

  /** The typed jobs of one agency. */
  ghost function JobsOf(store: Store, agency: string): map<string, Job> {
    map k | k in store && k.agency == agency && M.IsJob(store, k) :: k.id := JobFromEntity(store[k])
  }

  ghost function SysOf(store: Store, agency: string, now: nat): L.Sys {
    L.Sys(JobsOf(store, agency), [], now)
  }

  /** The guard each manager call's contract names. */
  function ContractGuard(before: Store, k: Key, op: L.Op): bool {
    match op
    case Start(_) => M.HasStatus(before, k, {"pending", "retrying"})
    case Complete(_, _) => M.HasStatus(before, k, {"running"})
    case Fail(_, _) => M.HasStatus(before, k, {"running"})
    case Cancel(_) => M.HasStatus(before, k, {"pending", "running"})
    case _ => true
  }

  /** The write each manager call's contract names. */
  function ContractWrite(before: Store, k: Key, op: L.Op, now: nat): Write {
    match op
    case Start(_) => WStart(now)
    case Complete(_, result) => WComplete(result, now)
    case Fail(_, msg) => WFail(M.NextCount(before, k), msg, now)
    case Cancel(_) => WCancel(now)
    case BindRun(_, run) => WBindRun(run)
    case _ => WCancel(now)
  }

  /** What the contract of StartJob, CompleteJob, FailJob, CancelJob or SetJobWorkflowRunID says. */
  ghost predicate CallContract(before: Store, after: Store, agency: string, op: L.Op, now: nat, r: Result<Job>) {
    var k := Key(agency, op.id);
    && !op.Create? && !op.Withdraw?
    && M.Called(before, after, k, ContractGuard(before, k, op), PatchOf(ContractWrite(before, k, op, now)), r)
  }

  /** Patching one job's bag is writing that typed job, and nothing else. */
  lemma PatchIsWrite(store: Store, k: Key, w: Write)
    requires WellKeyed(store) && M.IsJob(store, k) && Sendable(w)
    ensures k.id in JobsOf(store, k.agency) && JobsOf(store, k.agency)[k.id] == JobFromEntity(store[k])
    ensures JobsOf(Patched(store, k, PatchOf(w)), k.agency)
         == JobsOf(store, k.agency)[k.id := JobAfter(JobFromEntity(store[k]), w)]
  {
    PatchRefinesTransition(store[k], w);
    ReplacedJob(store, k, store[k].(props := store[k].props + PatchOf(w)));
  }

  lemma ReplacedJob(store: Store, k: Key, e: Entity)
    requires e.typeId == JOB_TYPE
    ensures JobsOf(store[k := e], k.agency) == JobsOf(store, k.agency)[k.id := JobFromEntity(e)]
    ensures M.IsJob(store, k) ==> k.id in JobsOf(store, k.agency) && JobsOf(store, k.agency)[k.id] == JobFromEntity(store[k])
    ensures k.id in JobsOf(store, k.agency) ==> M.IsJob(store, k)
  {
    var a, b := JobsOf(store[k := e], k.agency), JobsOf(store, k.agency)[k.id := JobFromEntity(e)];
    forall id: string ensures (id in a <==> id in b) && (id in a ==> a[id] == b[id]) { ReplacedJobAt(store, k, e, id); }
    assert a.Keys == b.Keys;
    Member(store, k.agency, k.id);
  }

  lemma ReplacedJobAt(store: Store, k: Key, e: Entity, id: string)
    requires e.typeId == JOB_TYPE
    ensures var a, b := JobsOf(store[k := e], k.agency), JobsOf(store, k.agency)[k.id := JobFromEntity(e)];
      (id in a <==> id in b) && (id in a ==> a[id] == b[id])
  {
    Member(store[k := e], k.agency, id);
    Member(store, k.agency, id);
  }

  lemma Member(store: Store, agency: string, id: string)
    ensures id in JobsOf(store, agency) <==> M.IsJob(store, Key(agency, id))
    ensures id in JobsOf(store, agency) ==> JobsOf(store, agency)[id] == JobFromEntity(store[Key(agency, id)])
  {}

  lemma ContractIsWriteOf(before: Store, k: Key, op: L.Op, now: nat)
    requires !op.Create? && !op.Withdraw? && M.IsJob(before, k)
    ensures var w := L.WriteOf(op, JobFromEntity(before[k]), now);
      && (w.Some? <==> ContractGuard(before, k, op))
      && (w.Some? ==> w.value == ContractWrite(before, k, op, now))
  {
    M.GuardTexts(before[k]);
  }

  /** The machine accepts a call exactly when its job exists and the contract's guard holds. */
  lemma AcceptedIff(before: Store, agency: string, op: L.Op, now: nat)
    requires !op.Create? && !op.Withdraw?
    ensures var s, c, k := SysOf(before, agency, now), L.Call(op, 0), Key(agency, op.id);
      && (L.Accepted(s, c) <==> M.IsJob(before, k) && ContractGuard(before, k, op))
      && (L.Accepted(s, c) ==> L.Outcome(s, c) == JobAfter(JobFromEntity(before[k]), ContractWrite(before, k, op, now)))
      && L.Apply(s, c).jobs == if L.Accepted(s, c) then s.jobs[op.id := L.Outcome(s, c)] else s.jobs
  {
    Member(before, agency, op.id);
    if M.IsJob(before, Key(agency, op.id)) { ContractIsWriteOf(before, Key(agency, op.id), op, now); }
  }

  /**
   * A lifecycle call that storage does not fail is one step of the machine: it is accepted
   * exactly when the machine accepts it, and otherwise changes nothing.
   */
  lemma CallIsStep(before: Store, after: Store, agency: string, op: L.Op, now: nat, r: Result<Job>)
    requires WellKeyed(before) && CallContract(before, after, agency, op, now, r) && r != Err(StorageFailure)
    ensures var s, c := SysOf(before, agency, now), L.Call(op, 0);
      && JobsOf(after, agency) == L.Apply(s, c).jobs
      && (r.Ok? <==> L.Accepted(s, c))
      && (r.Ok? ==> r.value == L.Outcome(s, c))
  {
    var k := Key(agency, op.id);
    AcceptedIff(before, agency, op, now);
    CalledIsWrite(before, after, k, ContractGuard(before, k, op), ContractWrite(before, k, op, now), r);
  }

  lemma CalledIsWrite(before: Store, after: Store, k: Key, guard: bool, w: Write, r: Result<Job>)
    requires WellKeyed(before) && Sendable(w)
    requires M.Called(before, after, k, guard, PatchOf(w), r) && r != Err(StorageFailure)
    ensures r.Ok? <==> M.IsJob(before, k) && guard
    ensures !r.Ok? ==> after == before
    ensures r.Ok? ==>
      && r.value == JobAfter(JobFromEntity(before[k]), w)
      && JobsOf(after, k.agency) == JobsOf(before, k.agency)[k.id := r.value]
  {
    if r.Ok? {
      PatchIsWrite(before, k, w);
      PatchRefinesTransition(before[k], w);
    }
  }

  predicate IsCall(op: L.Op) { !op.Create? && !op.Withdraw? }

  /** The contracts' guards and patches, spelled out. */
  lemma ContractSpelled(before: Store, k: Key, op: L.Op, now: nat)
    requires IsCall(op)
    ensures ContractGuard(before, k, op) ==
      match op
      case Start(_) => M.HasStatus(before, k, {"pending", "retrying"})
      case Complete(_, _) => M.HasStatus(before, k, {"running"})
      case Fail(_, _) => M.HasStatus(before, k, {"running"})
      case Cancel(_) => M.HasStatus(before, k, {"pending", "running"})
      case BindRun(_, _) => true
    ensures PatchOf(ContractWrite(before, k, op, now)) ==
      match op
      case Start(_) => map[PStatus := Text("running"), PStartedAt := Stamp(now)]
      case Complete(_, result) => map[PStatus := Text("completed"), PResult := Text(result), PCompletedAt := Stamp(now)]
      case Fail(_, msg) =>
        var count := M.NextCount(before, k);
        if count >= 3 then
          map[PStatus := Text("failed"), PError := Text(msg), PRetryCount := Int(count), PCompletedAt := Stamp(now)]
        else map[PStatus := Text("retrying"), PError := Text(msg), PRetryCount := Int(count)]
      case Cancel(_) => map[PStatus := Text("cancelled"), PCompletedAt := Stamp(now)]
      case BindRun(_, run) => map[PWorkflowRunId := Text(run)]
  {
    hide M.HasStatus;
  }

  function Announced(topic: Topic, e: Entity): Event {
    Lifecycle(topic := topic, jobId := e.id, functionName := TextProp(e.props, PFunctionName),
              triggerEvent := TextProp(e.props, PTriggerEvent), workflowRunId := TextProp(e.props, PWorkflowRunId))
  }

  /** The events of an accepted call, by what the manager's contract says it announces. */
  lemma AcceptedEvents(before: Store, after: Store, agency: string, op: L.Op, now: nat, r: Result<Job>)
    requires CallContract(before, after, agency, op, now, r) && r.Ok?
    ensures var k := Key(agency, op.id);
      && M.IsJob(before, k) && M.IsJob(after, k)
      && L.EventsOf(op, JobFromEntity(before[k]), JobFromEntity(after[k])) ==
         match op
         case Start(_) => [Announced(JobStarted, after[k])]
         case Complete(_, _) => [Announced(JobCompleted, after[k])]
         case Fail(_, _) => if M.NextCount(before, k) >= 3 then [Announced(JobFailed, after[k])] else []
         case _ => []
  {
    hide JobFromEntity;
    hide TextProp;
    hide ContractGuard;
    var k := Key(agency, op.id);
    PatchRefinesTransition(before[k], ContractWrite(before, k, op, now));
    hide PatchOf;
    M.AnnouncesStoredFields(after[k], JobStarted);
    M.AnnouncesStoredFields(after[k], JobCompleted);
    M.AnnouncesStoredFields(after[k], JobFailed);
    M.GuardTexts(before[k]);
  }

  /** Any caller of the manager: one call, made as the machine's call says. */
  method Perform(mgr: M.FunctionsManager, agency: string, op: L.Op, now: nat) returns (r: Result<Job>)
    requires mgr.Valid() && IsCall(op)
    modifies mgr.dm, mgr.pub
    ensures mgr.Valid()
    ensures CallContract(old(mgr.dm.entities), mgr.dm.entities, agency, op, now, r)
    ensures mgr.dm.reliable ==> r != Err(StorageFailure)
    ensures !r.Ok? ==> mgr.Told() == old(mgr.Told())
    ensures mgr.Reliable() && r.Ok? ==>
      var k := Key(agency, op.id);
      && M.IsJob(old(mgr.dm.entities), k) && k in mgr.dm.entities
      && mgr.Told() == old(mgr.Told())
           + L.EventsOf(op, JobFromEntity(old(mgr.dm.entities)[k]), JobFromEntity(mgr.dm.entities[k]))
  {
    hide JobFromEntity;
    hide TextProp;
    hide PatchOf;
    hide ContractWrite;
    hide ContractGuard;
    hide M.HasStatus;
    hide M.NextCount;
    hide M.Called;
    hide L.EventsOf;
    ghost var before, k := mgr.dm.entities, Key(agency, op.id);
    ContractSpelled(before, k, op, now);
    match op {
      case Start(_) => r := mgr.StartJob(agency, op.id, now);
      case Complete(_, result) => r := mgr.CompleteJob(agency, op.id, result, now);
      case Fail(_, msg) => r := mgr.FailJob(agency, op.id, msg, now);
      case Cancel(_) => r := mgr.CancelJob(agency, op.id, now);
      case BindRun(_, run) => r := mgr.SetJobWorkflowRunID(agency, op.id, run);
    }
    if r.Ok? { AcceptedEvents(before, mgr.dm.entities, agency, op, now, r); }
  }

  /** A call on a manager that neither storage nor the publisher fails is a step of the machine, events included. */
  method PerformIsStep(mgr: M.FunctionsManager, agency: string, op: L.Op, now: nat) returns (r: Result<Job>)
    requires mgr.Valid() && mgr.Reliable() && IsCall(op)
    modifies mgr.dm, mgr.pub
    ensures mgr.Valid()
    ensures var s, c := SysOf(old(mgr.dm.entities), agency, now), L.Call(op, 0);
      && JobsOf(mgr.dm.entities, agency) == L.Apply(s, c).jobs
      && mgr.Told() == old(mgr.Told()) + L.Apply(s, c).events
      && (r.Ok? <==> L.Accepted(s, c))
      && (r.Ok? ==> r.value == L.Outcome(s, c))
  {
    hide CallContract;
    hide JobFromEntity;
    hide JobsOf;
    hide L.EventsOf;
    hide L.WriteOf;
    hide L.Accepted;
    hide L.Outcome;
    ghost var before := mgr.dm.entities;
    r := Perform(mgr, agency, op, now);
    CallIsStep(before, mgr.dm.entities, agency, op, now, r);
    StepEvents(before, mgr.dm.entities, agency, op, now);
  }

  /** The events of the machine's step. */
  lemma StepEvents(before: Store, after: Store, agency: string, op: L.Op, now: nat)
    requires IsCall(op) && JobsOf(after, agency) == L.Apply(SysOf(before, agency, now), L.Call(op, 0)).jobs
    ensures var s, c, k := SysOf(before, agency, now), L.Call(op, 0), Key(agency, op.id);
      L.Apply(s, c).events == if L.Accepted(s, c) && k in before && k in after
                              then L.EventsOf(op, JobFromEntity(before[k]), JobFromEntity(after[k])) else []
  {
    hide JobFromEntity;
    hide L.EventsOf;
    hide L.WriteOf;
    hide JobAfter;
    Member(before, agency, op.id);
    Member(after, agency, op.id);
    var s, c := SysOf(before, agency, now), L.Call(op, 0);
    if L.Accepted(s, c) { assert s.events + L.Published(s, c) == L.Published(s, c); }
  }

  /** No lifecycle call, failed or not, changes an entity that is not its own job. */
  lemma CallTouchesOnlyItsJob(before: Store, after: Store, agency: string, op: L.Op, now: nat, r: Result<Job>, k: Key)
    requires CallContract(before, after, agency, op, now, r)
    requires k in before && (k != Key(agency, op.id) || !M.IsJob(before, k))
    ensures k in after && after[k] == before[k]
  {}

  /** Creating a job is the machine's creation step. */
  lemma CreateIsStep(before: Store, agency: string, id: string, f: string, trigger: string, payload: string,
                     taskId: string, run: string, now: nat)
    requires Key(agency, id) !in before
    ensures var k := Key(agency, id);
      var after := before[k := NewJobEntity(id, agency, f, trigger, payload, taskId, run, now)];
      JobsOf(after, agency)
      == L.Apply(SysOf(before, agency, now), L.Call(L.Create(id, agency, f, trigger, payload, taskId, run), 0)).jobs
  {
    CreationRefinesNewJob(id, agency, f, trigger, payload, taskId, run, now);
    ReplacedJob(before, Key(agency, id), NewJobEntity(id, agency, f, trigger, payload, taskId, run, now));
    Member(before, agency, id);
  }

  // ---------- rollback ----------

  /** A completion time is either a time or empty, as everything the manager writes is. */
  predicate CleanTime(props: Props) {
    R.CompletedAtEmpty(props) == TimeProp(props, PCompletedAt).None?
  }

  ghost predicate CleanTimes(store: Store) {
    forall k | k in store && M.IsJob(store, k) :: CleanTime(store[k].props)
  }

  /** Creation makes clean bags and every write keeps them clean. */
  lemma WritesKeepTimesClean(props: Props, w: Write, f: string, trigger: string, payload: string, taskId: string,
                             run: string, now: nat)
    ensures CleanTime(NewJobProps(f, trigger, payload, taskId, run, now))
    ensures CleanTime(props) ==> CleanTime(props + PatchOf(w))
  {}

  /** The machine's calls that make up a rollback of the listed jobs. */
  ghost function WithdrawAll(s: L.Sys, ids: seq<string>, run: string, reason: string): L.Sys {
    if ids == [] then s
    else L.Apply(WithdrawAll(s, ids[..|ids| - 1], run, reason), L.Call(L.Withdraw(ids[|ids| - 1], run, reason), 0))
  }

  /** A rollback is its jobs' withdrawal steps in listing order, with the same events. */
  lemma {:induction false} RollbackIsSteps(store: Store, agency: string, ids: seq<string>, run: string, reason: string, now: nat)
    requires WellKeyed(store) && CleanTimes(store) && run != "" && R.Distinct(ids)
    requires forall id | id in ids :: Key(agency, id) in store && R.OfRun(store[Key(agency, id)], agency, run)
    ensures WithdrawAll(SysOf(store, agency, now), ids, run, reason)
         == L.Sys(JobsOf(R.Rolled(store, agency, ids, reason, now), agency),
                  R.Events(store, agency, ids, run, reason), now)
  {
    if ids == [] {
      assert R.Rolled(store, agency, ids, reason, now) == store;
    } else {
      var init, last := ids[..|ids| - 1], ids[|ids| - 1];
      assert ids == init + [last] && last !in init && last in ids;
      assert forall id | id in init :: id in ids;
      RollbackIsSteps(store, agency, init, run, reason, now);
      R.RolledStep(store, agency, init, last, reason, now);
      R.EventsStep(store, agency, init, last, run, reason);
      WithdrawStep(R.Rolled(store, agency, init, reason, now), Key(agency, last), run, reason, now,
                   R.Events(store, agency, init, run, reason));
    }
  }

  lemma WithdrawStep(store: Store, k: Key, run: string, reason: string, now: nat, events: seq<Event>)
    requires k in store && store[k].id == k.id && CleanTime(store[k].props) && run != "" && R.OfRun(store[k], k.agency, run)
    ensures L.Apply(L.Sys(JobsOf(store, k.agency), events, now), L.Call(L.Withdraw(k.id, run, reason), 0))
         == L.Sys(JobsOf(R.WithdrawnAt(store, k, reason, now), k.agency),
                  events + R.Announcement(store[k], run, reason), now)
  {
    hide R.WithdrawalPatch;
    hide JobsOf;
    R.OfRunMeans(store[k], k.agency, run);
    var e := R.RolledBackEntity(store[k], reason, now);
    R.RolledBackJobIsTransition(store[k], reason, now);
    ReplacedJob(store, k, e);
    var s := L.Sys(JobsOf(store, k.agency), events, now);
    assert s.jobs[k.id] == JobFromEntity(store[k]);
    if RollbackTarget(R.StatusOf(store[k])).None? {
      assert s.jobs[k.id := JobFromEntity(store[k])] == s.jobs;
      assert events + [] == events;
    }
  }
}
