/** The functions manager: every lifecycle call reads, guards, merge-patches and announces. */
module Manager {
  import opened Common
  import opened Entities
  import opened Jobs
  import R = Rollback

  /** Accepts published events; when not reliable, it may drop any of them. */
  class Publisher {
    var events: seq<Event>
    const reliable: bool

    constructor (reliable: bool)
      ensures events == [] && this.reliable == reliable
    {
      events := [];
      this.reliable := reliable;
    }

    method Publish(e: Event)
      modifies this
      ensures events == old(events) + [e] || (!reliable && events == old(events))
    {
      if !reliable {
        if * { return; }
      }
      events := events + [e];
    }
  }

  /** Narrows a listing; an empty text means the property is not filtered on. */
  datatype JobFilter = JobFilter(status: string, functionName: string, workflowRunId: string)

  function FilterProps(f: JobFilter): map<Prop, string> {
    (if f.status != "" then map[PStatus := f.status] else map[])
    + (if f.functionName != "" then map[PFunctionName := f.functionName] else map[])
    + (if f.workflowRunId != "" then map[PWorkflowRunId := f.workflowRunId] else map[])
  }

  datatype RollbackResult =
    RollbackResult(workflowRunId: string, cancelled: seq<string>, rolledBack: seq<string>, skipped: seq<string>)

  const NO_RESULT := RollbackResult("", [], [], [])

  /** The reference meaning of passing a filter: each field that is not empty is the property's own text. */
  predicate Passes(e: Entity, agency: string, f: JobFilter) {
    && e.agency == agency && e.typeId == "Job"
    && (f.status != "" ==> PStatus in e.props && e.props[PStatus] == Text(f.status))
    && (f.functionName != "" ==> PFunctionName in e.props && e.props[PFunctionName] == Text(f.functionName))
    && (f.workflowRunId != "" ==> PWorkflowRunId in e.props && e.props[PWorkflowRunId] == Text(f.workflowRunId))
  }

  lemma SelectsIffPasses(e: Entity, agency: string, f: JobFilter)
    ensures Selects(e, agency, JOB_TYPE, FilterProps(f)) <==> Passes(e, agency, f)
  {
    var filter := FilterProps(f);
    assert PStatus in filter <==> f.status != "";
    assert PFunctionName in filter <==> f.functionName != "";
    assert PWorkflowRunId in filter <==> f.workflowRunId != "";
  }

  /** The fields of a job that passed a filter. */
  predicate PassedFields(e: Entity, f: JobFilter) {
    var j := JobFromEntity(e);
    && (f.status != "" ==> StatusText(j.status) == f.status)
    && (f.functionName != "" ==> j.functionName == f.functionName)
    && (f.workflowRunId != "" ==> j.workflowRunId == f.workflowRunId)
  }

  lemma PassedHasFields(e: Entity, agency: string, f: JobFilter)
    requires Passes(e, agency, f)
    ensures PassedFields(e, f)
  {}

  predicate IsJob(store: Store, k: Key) { k in store && store[k].typeId == JOB_TYPE }

  /** A job whose stored status is one of these texts. */
  predicate HasStatus(store: Store, k: Key, texts: set<string>) {
    k in store && store[k].typeId == "Job" && R.Says(store[k], texts)
  }

  /** The guards of the lifecycle calls, on the typed status and on the stored text. */
  lemma GuardTexts(e: Entity)
    ensures R.StatusOf(e) in {Pending, Retrying} <==> R.Says(e, {"pending", "retrying"})
    ensures R.StatusOf(e) in {Pending, Running} <==> R.Says(e, {"pending", "running"})
    ensures R.StatusOf(e) == Running <==> R.Says(e, {"running"})
    ensures JobFromEntity(e).status == R.StatusOf(e) && JobFromEntity(e).retryCount == IntProp(e.props, PRetryCount)
  {}

  /** The event that announces a job, field by field against its stored properties. */
  lemma AnnouncesStoredFields(e: Entity, topic: Topic)
    ensures LifecycleEvent(topic, JobFromEntity(e))
         == Lifecycle(topic := topic, jobId := e.id, functionName := TextProp(e.props, PFunctionName),
                      triggerEvent := TextProp(e.props, PTriggerEvent), workflowRunId := TextProp(e.props, PWorkflowRunId))
  {}

  function NextCount(store: Store, k: Key): int {
    if k in store then IntProp(store[k].props, PRetryCount) + 1 else 1
  }

  /** What a lifecycle call does: it patches exactly its job, or reports why not. */
  ghost predicate Called(before: Store, after: Store, k: Key, guard: bool, patch: Props, r: Result<Job>) {
    match r
    case Ok(job) =>
      && IsJob(before, k) && guard
      && after == Patched(before, k, patch)
      && job == JobFromEntity(after[k])
    case Err(JobNotFound) => !IsJob(before, k) && after == before
    case Err(InvalidJobTransition) => IsJob(before, k) && !guard && after == before
    case Err(StorageFailure) =>
      after == before || (IsJob(before, k) && guard && after == Patched(before, k, patch))
    case Err(WorkflowRunIdRequired) => false
  }

  /** What a rollback does that listed `ids` and handled the first n of them. */
  ghost predicate RollbackDone(before: Store, after: Store, agency: string, run: string, reason: string, now: nat,
                               ids: seq<string>, n: nat, result: RollbackResult, failed: bool)
  {
    && R.IsRunListing(before, agency, run, ids)
    && n <= |ids|
    && R.AllStored(before, agency, ids[..n])
    && result == Report(before, agency, run, ids[..n])
    && (if failed then
          && n < |ids|
          && (after == R.Rolled(before, agency, ids[..n], reason, now)
              || after == R.Rolled(before, agency, ids[..n + 1], reason, now))
        else
          n == |ids| && after == R.Rolled(before, agency, ids, reason, now))
  }

  function Report(store: Store, agency: string, run: string, ids: seq<string>): RollbackResult
    requires R.AllStored(store, agency, ids)
  {
    RollbackResult(run, R.Outcome(store, agency, ids, Some(Cancelled)),
                   R.Outcome(store, agency, ids, Some(RolledBack)), R.Outcome(store, agency, ids, None))
  }

  /** A listed job is the typed reading of the entity of that id. */
  ghost predicate ListedAs(job: Job, id: string, store: Store, agency: string) {
    && Key(agency, id) in store
    && job.id == id
    && job == JobFromEntity(store[Key(agency, id)])
    && job.status == R.StatusOf(store[Key(agency, id)])
  }

  /** The report once one more job has been handled. */
  function Extended(report: RollbackResult, id: string, target: Option<JobStatus>): RollbackResult {
    match target
    case None => report.(skipped := report.skipped + [id])
    case Some(next) =>
      if next == Cancelled then report.(cancelled := report.cancelled + [id])
      else report.(rolledBack := report.rolledBack + [id])
  }

  class FunctionsManager {
    const dm: DataManager
    const pub: Publisher?

    constructor (dm: DataManager, pub: Publisher?)
      ensures this.dm == dm && this.pub == pub
    {
      this.dm := dm;
      this.pub := pub;
    }

    ghost predicate Valid() reads dm { WellKeyed(dm.entities) }

    ghost function Told(): seq<Event> reads if pub == null then {} else {pub} {
      if pub == null then [] else pub.events
    }

    /** Neither storage nor the publisher fails. */
    predicate Reliable() { dm.reliable && pub != null && pub.reliable }

    method GetJob(agency: string, id: string) returns (r: Result<Job>)
      requires Valid()
      ensures r.Ok? ==> IsJob(dm.entities, Key(agency, id)) && r.value == JobFromEntity(dm.entities[Key(agency, id)])
      ensures r.Err? ==> r.error == StorageFailure || (r.error == JobNotFound && !IsJob(dm.entities, Key(agency, id)))
      ensures dm.reliable ==> r != Err(StorageFailure)
      ensures r.Ok? ==> Key(agency, id) in dm.entities && dm.entities[Key(agency, id)].typeId == "Job"
      ensures r == Err(JobNotFound) ==> Key(agency, id) !in dm.entities || dm.entities[Key(agency, id)].typeId != "Job"
    {
      var e := dm.GetEntity(agency, id);
      if e.Err? { return Err(e.error); }
      if e.value.typeId != JOB_TYPE { return Err(JobNotFound); }
      r := Ok(JobFromEntity(e.value));
    }

    method ListJobs(agency: string, filter: JobFilter) returns (r: Result<seq<Job>>, ghost es: seq<Entity>)
      requires Valid()
      ensures r.Err? ==> r.error == StorageFailure
      ensures dm.reliable ==> r.Ok?
      ensures r.Ok? ==>
        && IsListing(es, dm.entities, agency, JOB_TYPE, FilterProps(filter))
        && |r.value| == |es|
        && (forall i | 0 <= i < |es| :: r.value[i] == JobFromEntity(es[i]))
        && (forall i | 0 <= i < |es| :: es[i] in dm.entities.Values && Passes(es[i], agency, filter))
        && (forall i, j | 0 <= i < j < |es| :: r.value[i].id != r.value[j].id)
        && (forall k | k in dm.entities && Passes(dm.entities[k], agency, filter) :: dm.entities[k] in es)
        && (filter.status != "" ==> forall i | 0 <= i < |es| :: StatusText(r.value[i].status) == filter.status)
        && (filter.functionName != "" ==> forall i | 0 <= i < |es| :: r.value[i].functionName == filter.functionName)
        && (filter.workflowRunId != "" ==> forall i | 0 <= i < |es| :: r.value[i].workflowRunId == filter.workflowRunId)
    {
      var listed := dm.ListEntities(agency, JOB_TYPE, FilterProps(filter));
      es := [];
      if listed.Err? { return Err(listed.error), es; }
      es := listed.value;
      var jobs: seq<Job> := [];
      for i := 0 to |listed.value|
        invariant |jobs| == i
        invariant forall j | 0 <= j < i :: jobs[j] == JobFromEntity(es[j])
      {
        jobs := jobs + [JobFromEntity(listed.value[i])];
      }
      r := Ok(jobs);
      forall e: Entity ensures Selects(e, agency, JOB_TYPE, FilterProps(filter)) <==> Passes(e, agency, filter) {
        SelectsIffPasses(e, agency, filter);
      }
      forall i | 0 <= i < |es| ensures PassedFields(es[i], filter) { PassedHasFields(es[i], agency, filter); }
      hide Selects;
      hide Passes;
    }

    /** Reads the job again and publishes its key fields; any failure drops the event. */
    method Publish(topic: Topic, agency: string, id: string)
      requires Valid()
      modifies pub
      ensures Told() == old(Told()) || Announced(old(Told()), topic, Key(agency, id))
      ensures Reliable() && IsJob(dm.entities, Key(agency, id)) ==> Announced(old(Told()), topic, Key(agency, id))
    {
      if pub == null { return; }
      var job := GetJob(agency, id);
      if job.Err? { return; }
      pub.Publish(LifecycleEvent(topic, job.value));
    }

    /** Exactly one event more than `before`, each of its fields the job's own as now stored. */
    ghost predicate Announced(before: seq<Event>, topic: Topic, k: Key)
      reads dm, if pub == null then {} else {pub}
    {
      && k in dm.entities && dm.entities[k].typeId == "Job"
      && var props := dm.entities[k].props;
         Told() == before + [Lifecycle(topic := topic, jobId := k.id,
                                       functionName := TextProp(props, PFunctionName),
                                       triggerEvent := TextProp(props, PTriggerEvent),
                                       workflowRunId := TextProp(props, PWorkflowRunId))]
    }

    /** The events after a call that announces `topic` on success, and nothing otherwise. */
    ghost predicate Tells(before: seq<Event>, topic: Topic, k: Key, success: bool)
      reads dm, if pub == null then {} else {pub}
    {
      if success then Announced(before, topic, k) || (!Reliable() && Told() == before) else Told() == before
    }

    /** A publisher that is there and reliable has received exactly these events since. */
    ghost predicate Delivered(before: seq<Event>, events: seq<Event>)
      reads if pub == null then {} else {pub}
    {
      pub != null && pub.reliable ==> Told() == before + events
    }

    method CreateJob(agency: string, functionName: string, trigger: string, payload: string, taskId: string,
                     run: string, now: nat) returns (r: Result<Job>)
      requires Valid()
      modifies dm, pub
      ensures Valid()
      ensures dm.reliable ==> r.Ok?
      ensures r.Ok? ==>
        && r.value == NewJob(r.value.id, agency, functionName, trigger, payload, taskId, run, now)
        && r.value == Job(id := r.value.id, agency := agency, status := Pending, functionName := functionName,
                          triggerEvent := trigger, triggerPayload := payload, taskId := taskId, workflowRunId := run,
                          result := "", error := "", retryCount := 0,
                          createdAt := Some(now), startedAt := None, completedAt := None)
        && Key(agency, r.value.id) in dm.entities
        && dm.entities[Key(agency, r.value.id)] == Entity(id := r.value.id, agency := agency, typeId := "Job", props := map[
             PStatus := Text("pending"), PFunctionName := Text(functionName), PTriggerEvent := Text(trigger),
             PTriggerPayload := Text(payload), PTaskId := Text(taskId), PWorkflowRunId := Text(run),
             PResult := Text(""), PError := Text(""), PRetryCount := Int(0),
             PCreatedAt := Stamp(now), PStartedAt := Text(""), PCompletedAt := Text("")])
        && Added(old(dm.entities), dm.entities,
                 NewJobEntity(r.value.id, agency, functionName, trigger, payload, taskId, run, now))
        && Tells(old(Told()), JobCreated, Key(agency, r.value.id), true)
      ensures r.Err? ==> r.error == StorageFailure && Told() == old(Told())
      ensures r.Err? && dm.entities != old(dm.entities) ==>
        exists id :: Added(old(dm.entities), dm.entities,
                           Entity(id, agency, JOB_TYPE, NewJobProps(functionName, trigger, payload, taskId, run, now)))
    {
      var e := dm.CreateEntity(agency, JOB_TYPE, NewJobProps(functionName, trigger, payload, taskId, run, now));
      if e.Err? { return Err(e.error); }
      CreationRefinesNewJob(e.value.id, agency, functionName, trigger, payload, taskId, run, now);
      var job := JobFromEntity(e.value);
      Publish(JobCreated, agency, job.id);
      r := Ok(job);
    }

    method SetJobWorkflowRunID(agency: string, id: string, run: string) returns (r: Result<Job>)
      requires Valid()
      modifies dm
      ensures Valid()
      ensures Called(old(dm.entities), dm.entities, Key(agency, id), true, map[PWorkflowRunId := Text(run)], r)
      ensures dm.reliable ==> r != Err(StorageFailure)
    {
      var job := GetJob(agency, id);
      if job.Err? { return Err(job.error); }
      var e := dm.UpdateEntity(agency, id, PatchOf(WBindRun(run)));
      if e.Err? { return Err(e.error); }
      r := Ok(JobFromEntity(e.value));
    }

    method StartJob(agency: string, id: string, now: nat) returns (r: Result<Job>)
      requires Valid()
      modifies dm, pub
      ensures Valid()
      ensures Called(old(dm.entities), dm.entities, Key(agency, id),
                     HasStatus(old(dm.entities), Key(agency, id), {"pending", "retrying"}),
                     map[PStatus := Text("running"), PStartedAt := Stamp(now)], r)
      ensures dm.reliable ==> r != Err(StorageFailure)
      ensures Tells(old(Told()), JobStarted, Key(agency, id), r.Ok?)
    {
      hide JobFromEntity;
      hide R.Says;
      hide R.StatusOf;
      hide IntProp;
      hide TextProp;
      var job := GetJob(agency, id);
      if job.Err? { return Err(job.error); }
      GuardTexts(dm.entities[Key(agency, id)]);
      if job.value.status != Pending && job.value.status != Retrying { return Err(InvalidJobTransition); }
      var e := dm.UpdateEntity(agency, id, PatchOf(WStart(now)));
      if e.Err? { return Err(e.error); }
      Publish(JobStarted, agency, id);
      r := Ok(JobFromEntity(e.value));
    }

    method CompleteJob(agency: string, id: string, result: string, now: nat) returns (r: Result<Job>)
      requires Valid()
      modifies dm, pub
      ensures Valid()
      ensures Called(old(dm.entities), dm.entities, Key(agency, id),
                     HasStatus(old(dm.entities), Key(agency, id), {"running"}),
                     map[PStatus := Text("completed"), PResult := Text(result), PCompletedAt := Stamp(now)], r)
      ensures dm.reliable ==> r != Err(StorageFailure)
      ensures Tells(old(Told()), JobCompleted, Key(agency, id), r.Ok?)
    {
      hide JobFromEntity;
      hide R.Says;
      hide R.StatusOf;
      hide IntProp;
      hide TextProp;
      var job := GetJob(agency, id);
      if job.Err? { return Err(job.error); }
      GuardTexts(dm.entities[Key(agency, id)]);
      if job.value.status != Running { return Err(InvalidJobTransition); }
      var e := dm.UpdateEntity(agency, id, PatchOf(WComplete(result, now)));
      if e.Err? { return Err(e.error); }
      Publish(JobCompleted, agency, id);
      r := Ok(JobFromEntity(e.value));
    }

    method FailJob(agency: string, id: string, msg: string, now: nat) returns (r: Result<Job>)
      requires Valid()
      modifies dm, pub
      ensures Valid()
      ensures var count := NextCount(old(dm.entities), Key(agency, id));
        Called(old(dm.entities), dm.entities, Key(agency, id),
               HasStatus(old(dm.entities), Key(agency, id), {"running"}),
               if count >= 3 then
                 map[PStatus := Text("failed"), PError := Text(msg), PRetryCount := Int(count), PCompletedAt := Stamp(now)]
               else map[PStatus := Text("retrying"), PError := Text(msg), PRetryCount := Int(count)], r)
      ensures Key(agency, id) in old(dm.entities) ==>
        NextCount(old(dm.entities), Key(agency, id)) == IntProp(old(dm.entities)[Key(agency, id)].props, PRetryCount) + 1
      ensures dm.reliable ==> r != Err(StorageFailure)
      ensures Tells(old(Told()), JobFailed, Key(agency, id), 
                    r.Ok? && NextCount(old(dm.entities), Key(agency, id)) >= 3)
    {
      hide JobFromEntity;
      hide R.Says;
      hide R.StatusOf;
      hide IntProp;
      hide TextProp;
      var job := GetJob(agency, id);
      if job.Err? { return Err(job.error); }
      GuardTexts(dm.entities[Key(agency, id)]);
      if job.value.status != Running { return Err(InvalidJobTransition); }
      var newCount := job.value.retryCount + 1;
      assert newCount == NextCount(dm.entities, Key(agency, id));
      var e := dm.UpdateEntity(agency, id, PatchOf(WFail(newCount, msg, now)));
      if e.Err? { return Err(e.error); }
      if FailStatus(newCount) == Failed { Publish(JobFailed, agency, id); }
      r := Ok(JobFromEntity(e.value));
    }

    method CancelJob(agency: string, id: string, now: nat) returns (r: Result<Job>)
      requires Valid()
      modifies dm
      ensures Valid()
      ensures Called(old(dm.entities), dm.entities, Key(agency, id),
                     HasStatus(old(dm.entities), Key(agency, id), {"pending", "running"}),
                     map[PStatus := Text("cancelled"), PCompletedAt := Stamp(now)], r)
      ensures dm.reliable ==> r != Err(StorageFailure)
    {
      hide JobFromEntity;
      hide R.Says;
      hide R.StatusOf;
      hide IntProp;
      hide TextProp;
      var job := GetJob(agency, id);
      if job.Err? { return Err(job.error); }
      GuardTexts(dm.entities[Key(agency, id)]);
      if job.value.status != Pending && job.value.status != Running { return Err(InvalidJobTransition); }
      var e := dm.UpdateEntity(agency, id, PatchOf(WCancel(now)));
      if e.Err? { return Err(e.error); }
      r := Ok(JobFromEntity(e.value));
    }

    /** Re-reads one job and patches it; reports whether both store calls succeeded. */
    method ApplyRollbackStatus(agency: string, id: string, next: JobStatus, reason: string, now: nat) returns (ok: bool)
      requires Valid()
      modifies dm
      ensures Valid()
      ensures dm.reliable ==> (ok <==> Key(agency, id) in old(dm.entities))
      ensures var k := Key(agency, id);
        || (!ok && dm.entities == old(dm.entities))
        || (k in old(dm.entities)
            && dm.entities == Patched(old(dm.entities), k, R.WithdrawalPatch(old(dm.entities)[k], next, reason, now)))
      ensures var k := Key(agency, id);
        k in old(dm.entities) && dm.entities != old(dm.entities) ==>
          && k in dm.entities
          && R.StoredWithdrawal(old(dm.entities)[k], dm.entities[k], StatusText(next), reason, now)
          && (reason != "" ==> PRollbackReason in dm.entities[k].props && dm.entities[k].props[PRollbackReason] == Text(reason))
          && (reason == "" ==> (PRollbackReason in dm.entities[k].props <==> PRollbackReason in old(dm.entities)[k].props))
          && (reason == "" && PRollbackReason in dm.entities[k].props ==>
                dm.entities[k].props[PRollbackReason] == old(dm.entities)[k].props[PRollbackReason])
    {
      var current := dm.GetEntity(agency, id);
      if current.Err? { return false; }
      R.WithdrawalIsStored(current.value, next, reason, now);
      var e := dm.UpdateEntity(agency, id, R.WithdrawalPatch(current.value, next, reason, now));
      ok := e.Ok?;
    }

    /** Withdraws one listed job and announces it; the event's fields come from the listing. */
    method Withdraw(agency: string, run: string, job: Job, next: JobStatus, reason: string, now: nat) returns (ok: bool)
      requires Valid() && Key(agency, job.id) in dm.entities && RollbackTarget(job.status) == Some(next)
      modifies dm, pub
      ensures Valid()
      ensures dm.reliable ==> ok
      ensures var patched := Patched(old(dm.entities), Key(agency, job.id),
                               R.WithdrawalPatch(old(dm.entities)[Key(agency, job.id)], next, reason, now));
        dm.entities == patched || (!ok && dm.entities == old(dm.entities))
      ensures !ok ==> Told() == old(Told())
      ensures ok && pub != null && pub.reliable ==>
        && Told() == old(Told()) + [WithdrawalEvent(job, run, reason)]
        && Told() == old(Told()) + [Withdrawal(topic := if next == Cancelled then JobCancelled else JobRolledBack,
                                               jobId := job.id, functionName := job.functionName,
                                               workflowRunId := run, previous := job.status, reason := reason)]
    {
      ok := ApplyRollbackStatus(agency, job.id, next, reason, now);
      if ok && pub != null { pub.Publish(WithdrawalEvent(job, run, reason)); }
    }

    /** The body of the rollback loop: skips, cancels or rolls back one listed job. */
    method HandleListed(agency: string, run: string, job: Job, reason: string, now: nat, partial: RollbackResult)
      returns (result: RollbackResult, ok: bool)
      requires Valid() && ListedAs(job, job.id, dm.entities, agency)
      modifies dm, pub
      ensures Valid()
      ensures dm.reliable ==> ok
      ensures result == if ok then Extended(partial, job.id, RollbackTarget(job.status)) else partial
      ensures var withdrawn := R.WithdrawnAt(old(dm.entities), Key(agency, job.id), reason, now);
        dm.entities == withdrawn || (!ok && dm.entities == old(dm.entities))
      ensures Delivered(old(Told()),
                        if ok then R.Announcement(old(dm.entities)[Key(agency, job.id)], run, reason) else [])
    {
      result, ok := partial, true;
      if job.status == Cancelled || job.status == RolledBack {
        result := result.(skipped := result.skipped + [job.id]);
      } else if InFlight(job.status) {
        ok := Withdraw(agency, run, job, Cancelled, reason, now);
        if ok { result := result.(cancelled := result.cancelled + [job.id]); }
      } else if job.status == Completed || job.status == Failed {
        ok := Withdraw(agency, run, job, RolledBack, reason, now);
        if ok { result := result.(rolledBack := result.rolledBack + [job.id]); }
      } else {
        result := result.(skipped := result.skipped + [job.id]);
      }
    }

    /** The rollback loop over a listing; it stops at the first failure. */
    method HandleAll(agency: string, run: string, jobs: seq<Job>, ghost ids: seq<string>, reason: string, now: nat)
      returns (result: RollbackResult, failed: bool, handled: nat)
      requires Valid() && R.IsRunListing(dm.entities, agency, run, ids) && |jobs| == |ids|
      requires forall i | 0 <= i < |ids| ::
        ListedAs(jobs[i], ids[i], dm.entities, agency)
      modifies dm, pub
      ensures Valid()
      ensures dm.reliable ==> !failed
      ensures RollbackDone(old(dm.entities), dm.entities, agency, run, reason, now, ids, handled, result, failed)
      ensures Delivered(old(Told()), R.Events(old(dm.entities), agency, ids[..handled], run, reason))
    {
      hide Progress;
      hide RollbackDone;
      hide R.WithdrawnAt;
      hide R.Announcement;
      hide R.Events;
      hide R.Rolled;
      hide R.StatusOf;
      hide Extended;
      hide RollbackTarget;
      hide JobFromEntity;
      ghost var before, told := dm.entities, Told();
      result := RollbackResult(run, [], [], []);
      handled, failed := 0, false;
      NothingHandled(before, agency, run, ids, reason, now);
      ghost var events := [];
      while handled < |jobs|
        invariant 0 <= handled <= |jobs| && Valid() && !failed
        invariant Progress(before, dm.entities, agency, run, reason, now, ids, handled, result, events)
        invariant Delivered(told, events)
      {
        HandledNext(before, dm.entities, agency, run, reason, now, ids, handled, result, events);
        AbortedHere(before, dm.entities, agency, run, reason, now, ids, handled, result, events);
        assert ListedAs(jobs[handled], ids[handled], before, agency);
        assert ListedAs(jobs[handled], ids[handled], dm.entities, agency);
        var ok;
        result, ok := HandleListed(agency, run, jobs[handled], reason, now, result);
        if !ok { return result, true, handled; }
        events := events + R.Announcement(before[Key(agency, ids[handled])], run, reason);
        handled := handled + 1;
      }
      AllHandled(before, dm.entities, agency, run, reason, now, ids, result, events);
    }

    /**
     * Rolls a run back. `ids` is the order in which the store listed the run's jobs; the
     * result lists exactly the jobs handled before the first failure, if any.
     */
    method RollbackByWorkflowRun(agency: string, run: string, reason: string, now: nat)
      returns (result: RollbackResult, err: Option<Error>, ghost ids: seq<string>, ghost handled: nat)
      requires Valid()
      modifies dm, pub
      ensures Valid()
      ensures run == "" <==> err == Some(WorkflowRunIdRequired)
      ensures run != "" && err.Some? ==> err.value == StorageFailure && !dm.reliable
      ensures result == NO_RESULT ==> err.Some? && dm.entities == old(dm.entities) && Told() == old(Told())
      ensures run == "" ==> result == NO_RESULT
      ensures result != NO_RESULT ==>
        && RollbackDone(old(dm.entities), dm.entities, agency, run, reason, now, ids, handled, result, err.Some?)
        && Delivered(old(Told()), R.Events(old(dm.entities), agency, ids[..handled], run, reason))
      ensures result != NO_RESULT ==>
        && result.workflowRunId == run
        && dm.entities.Keys == old(dm.entities).Keys
        && (forall k | k in old(dm.entities) ::
              R.EntityRolledBack(old(dm.entities)[k], dm.entities[k], agency, run, reason, now,
                                 result.cancelled, result.rolledBack, result.skipped, err.None?))
        && R.ListsFit(old(dm.entities), agency, run, result.cancelled, result.rolledBack, result.skipped)
        && R.EventsFit(old(dm.entities), agency, run, reason,
                       R.Events(old(dm.entities), agency, ids[..handled], run, reason), result.cancelled, result.rolledBack)
    {
      ids, handled := [], 0;
      if run == "" { return NO_RESULT, Some(WorkflowRunIdRequired), ids, handled; }
      var listed, es := ListJobs(agency, JobFilter("", "", run));
      if listed.Err? { return NO_RESULT, Some(listed.error), ids, handled; }
      var jobs := listed.value;
      ids := seq(|jobs|, i requires 0 <= i < |jobs| => jobs[i].id);
      ListedJobs(dm.entities, agency, run, es, jobs, ids);
      var failed;
      result, failed, handled := HandleAll(agency, run, jobs, ids, reason, now);
      err := if failed then Some(StorageFailure) else None;
      DonePlainly(old(dm.entities), dm.entities, agency, run, reason, now, ids, handled, result, failed);
    }
  }

  /** What a rollback has done, entity by entity and job by job, in plain terms. */
  lemma DonePlainly(before: Store, after: Store, agency: string, run: string, reason: string, now: nat,
                    ids: seq<string>, n: nat, result: RollbackResult, failed: bool)
    requires WellKeyed(before) && RollbackDone(before, after, agency, run, reason, now, ids, n, result, failed)
    ensures result.workflowRunId == run && after.Keys == before.Keys
    ensures forall k | k in before ::
      R.EntityRolledBack(before[k], after[k], agency, run, reason, now,
                         result.cancelled, result.rolledBack, result.skipped, !failed)
    ensures R.ListsFit(before, agency, run, result.cancelled, result.rolledBack, result.skipped)
    ensures R.EventsFit(before, agency, run, reason, R.Events(before, agency, ids[..n], run, reason),
                        result.cancelled, result.rolledBack)
  {
    hide R.EntityRolledBack;
    hide R.ListsFit;
    hide R.EventsFit;
    hide R.Events;
    hide R.Outcome;
    var touched := if after == R.Rolled(before, agency, ids[..n], reason, now) then ids[..n] else ids[..n + 1];
    assert ids[..|ids|] == ids;
    R.HandledListsFit(before, agency, run, ids, ids[..n]);
    R.HandledEventsFit(before, agency, run, ids, ids[..n], reason);
    forall k | k in before
      ensures R.EntityRolledBack(before[k], after[k], agency, run, reason, now,
                                 result.cancelled, result.rolledBack, result.skipped, !failed)
    {
      R.RolledPlainly(before, agency, run, ids, ids[..n], touched, reason, now, k);
      AllHandledIff(ids, n);
    }
  }

  lemma AllHandledIff(ids: seq<string>, n: nat)
    requires R.Distinct(ids) && n <= |ids|
    ensures (forall id | id in ids :: id in ids[..n]) <==> n == |ids|
  {
    if n < |ids| { assert ids[n] in ids && ids[n] !in ids[..n]; }
    else { assert ids[..n] == ids; }
  }

  /** Part way through the loop: the first n of the listed jobs have been handled. */
  ghost predicate Progress(before: Store, after: Store, agency: string, run: string, reason: string, now: nat,
                           ids: seq<string>, n: nat, result: RollbackResult, events: seq<Event>)
  {
    && n <= |ids|
    && R.AllStored(before, agency, ids[..n])
    && after == R.Rolled(before, agency, ids[..n], reason, now)
    && result == Report(before, agency, run, ids[..n])
    && events == R.Events(before, agency, ids[..n], run, reason)
  }

  lemma NothingHandled(store: Store, agency: string, run: string, ids: seq<string>, reason: string, now: nat)
    ensures Progress(store, store, agency, run, reason, now, ids, 0, RollbackResult(run, [], [], []), [])
  {
    assert R.Rolled(store, agency, [], reason, now) == store;
  }

  lemma AllHandled(before: Store, after: Store, agency: string, run: string, reason: string, now: nat,
                   ids: seq<string>, result: RollbackResult, events: seq<Event>)
    requires Progress(before, after, agency, run, reason, now, ids, |ids|, result, events)
    requires R.IsRunListing(before, agency, run, ids)
    ensures RollbackDone(before, after, agency, run, reason, now, ids, |ids|, result, false)
    ensures R.AllStored(before, agency, ids[..|ids|]) && events == R.Events(before, agency, ids[..|ids|], run, reason)
  {
    assert ids[..|ids|] == ids;
  }

  /** Handling the next listed job extends the store, the report and the events by its own part. */
  lemma HandledNext(before: Store, after: Store, agency: string, run: string, reason: string, now: nat,
                    ids: seq<string>, n: nat, result: RollbackResult, events: seq<Event>)
    requires R.IsRunListing(before, agency, run, ids) && n < |ids|
    requires Progress(before, after, agency, run, reason, now, ids, n, result, events)
    ensures Key(agency, ids[n]) in before && Key(agency, ids[n]) in after
    ensures var k := Key(agency, ids[n]);
      && after[k] == before[k]
      && Progress(before, R.WithdrawnAt(after, k, reason, now), agency, run, reason, now, ids, n + 1,
                  Extended(result, ids[n], RollbackTarget(R.StatusOf(before[k]))),
                  events + R.Announcement(before[k], run, reason))
  {
    assert ids[..n + 1] == ids[..n] + [ids[n]];
    assert ids[n] !in ids[..n];
    R.RolledStep(before, agency, ids[..n], ids[n], reason, now);
    R.EventsStep(before, agency, ids[..n], ids[n], run, reason);
    ReportStep(before, agency, run, ids[..n], ids[n]);
  }

  lemma ReportStep(store: Store, agency: string, run: string, ids: seq<string>, id: string)
    requires R.AllStored(store, agency, ids) && Key(agency, id) in store
    ensures R.AllStored(store, agency, ids + [id])
    ensures Report(store, agency, run, ids + [id])
         == Extended(Report(store, agency, run, ids), id, RollbackTarget(R.StatusOf(store[Key(agency, id)])))
  {
    R.OutcomeNext(store, agency, ids, id, Some(Cancelled));
    R.OutcomeNext(store, agency, ids, id, Some(RolledBack));
    R.OutcomeNext(store, agency, ids, id, None);
  }

  /** Stopping after n jobs, with or without the failed update applied, is an aborted rollback. */
  lemma AbortedHere(before: Store, after: Store, agency: string, run: string, reason: string, now: nat,
                    ids: seq<string>, n: nat, result: RollbackResult, events: seq<Event>)
    requires R.IsRunListing(before, agency, run, ids) && n < |ids| && Key(agency, ids[n]) in before
    requires Progress(before, after, agency, run, reason, now, ids, n, result, events)
    ensures R.AllStored(before, agency, ids[..n]) && events == R.Events(before, agency, ids[..n], run, reason)
    ensures Key(agency, ids[n]) in after
    ensures RollbackDone(before, after, agency, run, reason, now, ids, n, result, true)
    ensures RollbackDone(before, R.WithdrawnAt(after, Key(agency, ids[n]), reason, now), agency, run, reason, now,
                         ids, n, result, true)
  {
    assert ids[..n + 1] == ids[..n] + [ids[n]];
    assert ids[n] !in ids[..n];
    R.RolledStep(before, agency, ids[..n], ids[n], reason, now);
  }

  /** The jobs a run's listing converts to, and the order of their ids. */
  lemma ListedJobs(store: Store, agency: string, run: string, es: seq<Entity>, jobs: seq<Job>, ids: seq<string>)
    requires WellKeyed(store) && run != ""
    requires IsListing(es, store, agency, JOB_TYPE, FilterProps(JobFilter("", "", run)))
    requires |jobs| == |es| == |ids|
    requires forall i | 0 <= i < |es| :: jobs[i] == JobFromEntity(es[i]) && ids[i] == jobs[i].id
    ensures R.IsRunListing(store, agency, run, ids)
    ensures forall i | 0 <= i < |ids| :: ListedAs(jobs[i], ids[i], store, agency)
  {
    assert FilterProps(JobFilter("", "", run)) == map[PWorkflowRunId := run];
    forall k | k in store && R.OfRun(store[k], agency, run) ensures k.agency == agency && k.id in ids {
      var i :| 0 <= i < |es| && es[i] == store[k];
      assert ids[i] == k.id;
    }
  }
}
