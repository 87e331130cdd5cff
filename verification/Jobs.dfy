/** Typed jobs, their conversion from property bags, and the writes that change them. */
module Jobs {
  import opened Common
  import opened Entities

  const MAX_RETRIES := 3
  const JOB_TYPE := "Job"

  /** Status is an open string in storage: anything unrecognised is Unknown. */
  datatype JobStatus =
    | Pending | Running | Completed | Failed | Cancelled | Retrying | RolledBack
    | Unknown(text: string)

  function StatusText(s: JobStatus): string {
    match s
    case Pending => "pending"
    case Running => "running"
    case Completed => "completed"
    case Failed => "failed"
    case Cancelled => "cancelled"
    case Retrying => "retrying"
    case RolledBack => "rolled_back"
    case Unknown(t) => t
  }

  function ParseStatus(t: string): JobStatus {
    if t == "pending" then Pending
    else if t == "running" then Running
    else if t == "completed" then Completed
    else if t == "failed" then Failed
    else if t == "cancelled" then Cancelled
    else if t == "retrying" then Retrying
    else if t == "rolled_back" then RolledBack
    else Unknown(t)
  }

  lemma StatusRoundTrip(s: JobStatus)
    ensures StatusText(ParseStatus(StatusText(s))) == StatusText(s)
    ensures !s.Unknown? ==> ParseStatus(StatusText(s)) == s
    ensures StatusText(Pending) == "pending" && StatusText(Running) == "running" && StatusText(Retrying) == "retrying"
    ensures StatusText(Completed) == "completed" && StatusText(Failed) == "failed"
    ensures StatusText(Cancelled) == "cancelled" && StatusText(RolledBack) == "rolled_back"
  {
    assert "pending"[0] == 'p' && "running"[0] == 'r';
    assert "completed"[0] == 'c' && "completed"[1] == 'o' && "cancelled"[1] == 'a';
  }

  datatype Job = Job(
    id: string, agency: string, status: JobStatus,
    functionName: string, triggerEvent: string, triggerPayload: string, taskId: string,
    workflowRunId: string, result: string, error: string, retryCount: int,
    createdAt: Option<nat>, startedAt: Option<nat>, completedAt: Option<nat>)

  function JobFromEntity(e: Entity): Job {
    Job(e.id, e.agency, ParseStatus(TextProp(e.props, PStatus)),
        TextProp(e.props, PFunctionName), TextProp(e.props, PTriggerEvent),
        TextProp(e.props, PTriggerPayload), TextProp(e.props, PTaskId),
        TextProp(e.props, PWorkflowRunId), TextProp(e.props, PResult), TextProp(e.props, PError),
        IntProp(e.props, PRetryCount),
        TimeProp(e.props, PCreatedAt), TimeProp(e.props, PStartedAt), TimeProp(e.props, PCompletedAt))
  }

  /** The text is what the property holds, or empty where it holds none. */
  predicate IsText(props: Props, p: Prop, text: string) {
    if p in props && props[p].Text? then text == props[p].text else text == ""
  }

  /** The time is what the property holds, or none where it holds none. */
  predicate IsTime(props: Props, p: Prop, time: Option<nat>) {
    if p in props && props[p].Stamp? then time == Some(props[p].at) else time == None
  }

  /** Each field of a typed job is read from its own property. */
  lemma JobFromEntityReads(e: Entity)
    ensures var j := JobFromEntity(e);
      && j.id == e.id && j.agency == e.agency
      && IsText(e.props, PStatus, StatusText(j.status))
      && IsText(e.props, PFunctionName, j.functionName)
      && IsText(e.props, PTriggerEvent, j.triggerEvent)
      && IsText(e.props, PTriggerPayload, j.triggerPayload)
      && IsText(e.props, PTaskId, j.taskId)
      && IsText(e.props, PWorkflowRunId, j.workflowRunId)
      && IsText(e.props, PResult, j.result)
      && IsText(e.props, PError, j.error)
      && j.retryCount == IntProp(e.props, PRetryCount)
      && IsTime(e.props, PCreatedAt, j.createdAt)
      && IsTime(e.props, PStartedAt, j.startedAt)
      && IsTime(e.props, PCompletedAt, j.completedAt)
  {}

  /** The property bag of a new job. */
  function NewJobProps(functionName: string, trigger: string, payload: string, taskId: string,
                       run: string, now: nat): Props
  {
    map[PStatus := Text(StatusText(Pending)), PFunctionName := Text(functionName),
        PTriggerEvent := Text(trigger), PTriggerPayload := Text(payload), PTaskId := Text(taskId),
        PWorkflowRunId := Text(run), PResult := Text(""), PError := Text(""), PRetryCount := Int(0),
        PCreatedAt := Stamp(now), PStartedAt := Text(""), PCompletedAt := Text("")]
  }

  function NewJobEntity(id: string, agency: string, functionName: string, trigger: string, payload: string,
                        taskId: string, run: string, now: nat): Entity
  {
    Entity(id, agency, JOB_TYPE, NewJobProps(functionName, trigger, payload, taskId, run, now))
  }

  function NewJob(id: string, agency: string, functionName: string, trigger: string, payload: string,
                  taskId: string, run: string, now: nat): Job
  {
    Job(id, agency, Pending, functionName, trigger, payload, taskId, run, "", "", 0, Some(now), None, None)
  }

  /** The merge patches that lifecycle calls and rollback send to the store. */
  datatype Write =
    | WStart(now: nat)
    | WComplete(result: string, now: nat)
    | WFail(count: int, msg: string, now: nat)
    | WCancel(now: nat)
    | WBindRun(run: string)
    | WRollback(next: JobStatus, reason: string, stamp: Option<nat>)

  function FailStatus(count: int): JobStatus {
    if count >= MAX_RETRIES then Failed else Retrying
  }

  function PatchOf(w: Write): Props {
    match w
    case WStart(now) => map[PStatus := Text(StatusText(Running)), PStartedAt := Stamp(now)]
    case WComplete(result, now) =>
      map[PStatus := Text(StatusText(Completed)), PResult := Text(result), PCompletedAt := Stamp(now)]
    case WFail(count, msg, now) =>
      if count >= MAX_RETRIES then
        map[PStatus := Text(StatusText(Failed)), PError := Text(msg), PRetryCount := Int(count),
            PCompletedAt := Stamp(now)]
      else
        map[PStatus := Text(StatusText(Retrying)), PError := Text(msg), PRetryCount := Int(count)]
    case WCancel(now) => map[PStatus := Text(StatusText(Cancelled)), PCompletedAt := Stamp(now)]
    case WBindRun(run) => map[PWorkflowRunId := Text(run)]
    case WRollback(next, reason, stamp) =>
      var base := map[PStatus := Text(StatusText(next))];
      var withReason := if reason != "" then base[PRollbackReason := Text(reason)] else base;
      if stamp.Some? then withReason[PCompletedAt := Stamp(stamp.value)] else withReason
  }

  /** The same writes on typed jobs. */
  function JobAfter(j: Job, w: Write): Job {
    match w
    case WStart(now) => j.(status := Running, startedAt := Some(now))
    case WComplete(result, now) => j.(status := Completed, result := result, completedAt := Some(now))
    case WFail(count, msg, now) =>
      var k := j.(status := FailStatus(count), error := msg, retryCount := count);
      if FailStatus(count) == Failed then k.(completedAt := Some(now)) else k
    case WCancel(now) => j.(status := Cancelled, completedAt := Some(now))
    case WBindRun(run) => j.(workflowRunId := run)
    case WRollback(next, _, stamp) =>
      j.(status := next, completedAt := if stamp.Some? then stamp else j.completedAt)
  }

  /** The writes the service sends: rollback only ever writes one of its two statuses. */
  predicate Sendable(w: Write) {
    w.WRollback? ==> w.next in {Cancelled, RolledBack}
  }

  /** Patching the bag and then converting is the typed transition of the converted job. */
  ghost predicate Refines(e: Entity, w: Write) {
    JobFromEntity(e.(props := e.props + PatchOf(w))) == JobAfter(JobFromEntity(e), w)
  }

  lemma StartRefines(e: Entity, w: Write)
    requires w.WStart?
    ensures Refines(e, w)
  {
    hide StatusText;
    hide ParseStatus;
    hide Truncate;
    StatusRoundTrip(Running);
  }

  lemma CompleteRefines(e: Entity, w: Write)
    requires w.WComplete?
    ensures Refines(e, w)
  {
    hide StatusText;
    hide ParseStatus;
    hide Truncate;
    StatusRoundTrip(Completed);
  }

  lemma RetryRefines(e: Entity, w: Write)
    requires w.WFail? && w.count < MAX_RETRIES
    ensures Refines(e, w)
  {
    hide StatusText;
    hide ParseStatus;
    hide Truncate;
    StatusRoundTrip(Retrying);
  }

  lemma FailRefines(e: Entity, w: Write)
    requires w.WFail? && w.count >= MAX_RETRIES
    ensures Refines(e, w)
  {
    hide StatusText;
    hide ParseStatus;
    hide Truncate;
    StatusRoundTrip(Failed);
  }

  lemma CancelRefines(e: Entity, w: Write)
    requires w.WCancel?
    ensures Refines(e, w)
  {
    hide StatusText;
    hide ParseStatus;
    hide Truncate;
    StatusRoundTrip(Cancelled);
  }

  lemma RollbackStampRefines(e: Entity, w: Write)
    requires w.WRollback? && Sendable(w) && w.stamp.Some?
    ensures Refines(e, w)
  {
    hide StatusText;
    hide ParseStatus;
    hide Truncate;
    StatusRoundTrip(w.next);
  }

  lemma RollbackKeepRefines(e: Entity, w: Write)
    requires w.WRollback? && Sendable(w) && w.stamp.None?
    ensures Refines(e, w)
  {
    hide StatusText;
    hide ParseStatus;
    hide Truncate;
    StatusRoundTrip(w.next);
  }

  lemma PatchRefinesTransition(e: Entity, w: Write)
    requires Sendable(w)
    ensures JobFromEntity(e.(props := e.props + PatchOf(w))) == JobAfter(JobFromEntity(e), w)
  {
    match w
    case WStart(_) => StartRefines(e, w);
    case WComplete(_, _) => CompleteRefines(e, w);
    case WFail(count, _, _) => if count < MAX_RETRIES { RetryRefines(e, w); } else { FailRefines(e, w); }
    case WCancel(_) => CancelRefines(e, w);
    case WBindRun(_) =>
    case WRollback(_, _, stamp) => if stamp.Some? { RollbackStampRefines(e, w); } else { RollbackKeepRefines(e, w); }
  }

  lemma CreationRefinesNewJob(id: string, agency: string, f: string, trigger: string, payload: string,
                              taskId: string, run: string, now: nat)
    ensures JobFromEntity(NewJobEntity(id, agency, f, trigger, payload, taskId, run, now))
         == NewJob(id, agency, f, trigger, payload, taskId, run, now)
  {
    StatusRoundTrip(Pending);
  }

  /** The integer a stored number denotes, whichever of its three shapes it has. */
  function Numeral(v: Value): Option<int> {
    match v
    case Int(n) => Some(n)
    case Int64(n) => Some(n)
    case Float(x) => if x.Floor as real == x then Some(x.Floor) else None
    case _ => None
  }

  /** Two bags that differ at most in the shape of their numbers. */
  ghost predicate SameUpToNumberShape(p: Props, q: Props) {
    && p.Keys == q.Keys
    && forall k | k in p :: p[k] == q[k] || (Numeral(p[k]).Some? && Numeral(p[k]) == Numeral(q[k]))
  }

  /** A store may re-encode numbers: conversion and every later patch are blind to it. */
  lemma NumberShapeIsInvisible(e: Entity, q: Props, w: Write)
    requires SameUpToNumberShape(e.props, q)
    ensures JobFromEntity(e.(props := q)) == JobFromEntity(e)
    ensures SameUpToNumberShape(e.props + PatchOf(w), q + PatchOf(w))
  {
    forall p: Prop ensures TextProp(q, p) == TextProp(e.props, p) && TimeProp(q, p) == TimeProp(e.props, p)
    {}
    if PRetryCount in q { NumeralIsIntProp(e.props, PRetryCount); NumeralIsIntProp(q, PRetryCount); }
  }

  lemma NumeralIsIntProp(props: Props, p: Prop)
    requires p in props
    ensures Numeral(props[p]).Some? ==> IntProp(props, p) == Numeral(props[p]).value
  {
    match props[p]
    case Float(x) => if x.Floor as real == x { assert (-x).Floor == -(x.Floor); }
    case _ =>
  }

  /** What running a function's binary yields; minted is the run id its result carries, if any. */
  datatype Output =
    | RunError(msg: string)
    | Ran(isError: bool, result: string, error: string, minted: string)

  predicate InFlight(s: JobStatus) { s in {Pending, Running, Retrying} }

  /** The statuses in which a job has ended. */
  predicate Terminal(s: JobStatus) { s in {Completed, Failed, Cancelled, RolledBack} }

  /** The two statuses that only cancellation and rollback write. */
  predicate Withdrawn(s: JobStatus) { s in {Cancelled, RolledBack} }

  /** What rollback turns a status into; None where it skips the job. */
  function RollbackTarget(s: JobStatus): Option<JobStatus> {
    match s
    case Pending => Some(Cancelled)
    case Running => Some(Cancelled)
    case Retrying => Some(Cancelled)
    case Completed => Some(RolledBack)
    case Failed => Some(RolledBack)
    case _ => None
  }

  datatype Topic = JobCreated | JobStarted | JobCompleted | JobFailed | JobCancelled | JobRolledBack

  /** The topic under which an event is published. */
  function TopicText(topic: Topic): string {
    match topic
    case JobCreated => "functions.job.created"
    case JobStarted => "functions.job.started"
    case JobCompleted => "functions.job.completed"
    case JobFailed => "functions.job.failed"
    case JobCancelled => "functions.job.cancelled"
    case JobRolledBack => "functions.job.rolled_back"
  }

  /** Lifecycle events carry four fields; rollback events carry the previous status and reason. */
  datatype Event =
    | Lifecycle(topic: Topic, jobId: string, functionName: string, triggerEvent: string,
                workflowRunId: string)
    | Withdrawal(topic: Topic, jobId: string, functionName: string, workflowRunId: string,
                 previous: JobStatus, reason: string)

  function LifecycleEvent(topic: Topic, j: Job): Event {
    Lifecycle(topic, j.id, j.functionName, j.triggerEvent, j.workflowRunId)
  }

  function RollbackTopic(next: JobStatus): Topic {
    if next == Cancelled then JobCancelled else JobRolledBack
  }

  /** The event of one job a rollback of `run` withdraws; the snapshot supplies its fields. */
  function WithdrawalEvent(j: Job, run: string, reason: string): Event
    requires RollbackTarget(j.status).Some?
  {
    Withdrawal(RollbackTopic(RollbackTarget(j.status).value), j.id, j.functionName, run, j.status, reason)
  }
}
