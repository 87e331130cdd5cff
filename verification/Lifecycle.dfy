/**
 * The call-atomic model: each manager call is one step of a machine over typed jobs, and
 * a rollback is one step per listed job. Any sequence of calls by any callers is a run.
 */
module Lifecycle {
  import opened Common
  import opened Jobs

  datatype Sys = Sys(jobs: map<string, Job>, events: seq<Event>, clock: nat)

  datatype Op =
    | Create(id: string, agency: string, functionName: string, trigger: string, payload: string,
             taskId: string, run: string)
    | Start(id: string)
    | Complete(id: string, result: string)
    | Fail(id: string, msg: string)
    | Cancel(id: string)
    | BindRun(id: string, run: string)
    | Withdraw(id: string, run: string, reason: string)

  /** A call, made `tick` seconds after the previous one. */
  datatype Call = Call(op: Op, tick: nat)

  /** The write a call makes on a job in the given state; None where its guard rejects. */
  function WriteOf(op: Op, j: Job, now: nat): Option<Write> {
    match op
    case Create(_, _, _, _, _, _, _) => None
    case Start(_) => if j.status in {Pending, Retrying} then Some(WStart(now)) else None
    case Complete(_, result) => if j.status == Running then Some(WComplete(result, now)) else None
    case Fail(_, msg) => if j.status == Running then Some(WFail(j.retryCount + 1, msg, now)) else None
    case Cancel(_) => if j.status in {Pending, Running} then Some(WCancel(now)) else None
    case BindRun(_, run) => Some(WBindRun(run))
    case Withdraw(_, run, reason) =>
      if run == "" || j.workflowRunId != run || RollbackTarget(j.status).None? then None
      else Some(WRollback(RollbackTarget(j.status).value, reason, if j.completedAt.None? then Some(now) else None))
  }

  /** The event an accepted call publishes; j is the job before and k after the write. */
  function EventsOf(op: Op, j: Job, k: Job): seq<Event> {
    match op
    case Start(_) => [LifecycleEvent(JobStarted, k)]
    case Complete(_, _) => [LifecycleEvent(JobCompleted, k)]
    case Fail(_, _) => if k.status == Failed then [LifecycleEvent(JobFailed, k)] else []
    case Withdraw(_, run, reason) =>
      if RollbackTarget(j.status).Some? then [WithdrawalEvent(j, run, reason)] else []
    case _ => []
  }

  /** The call is accepted: it creates a new job, or its guard lets it write an existing one. */
  predicate Accepted(s: Sys, c: Call) {
    if c.op.Create? then c.op.id !in s.jobs
    else c.op.id in s.jobs && WriteOf(c.op, s.jobs[c.op.id], s.clock + c.tick).Some?
  }

  /** The job an accepted call leaves behind. */
  function Outcome(s: Sys, c: Call): Job
    requires Accepted(s, c)
  {
    var now := s.clock + c.tick;
    match c.op
    case Create(id, agency, f, trigger, payload, taskId, run) =>
      NewJob(id, agency, f, trigger, payload, taskId, run, now)
    case op => JobAfter(s.jobs[op.id], WriteOf(op, s.jobs[op.id], now).value)
  }

  function Published(s: Sys, c: Call): seq<Event>
    requires Accepted(s, c)
  {
    if c.op.Create? then [LifecycleEvent(JobCreated, Outcome(s, c))]
    else EventsOf(c.op, s.jobs[c.op.id], Outcome(s, c))
  }

  function Written(s: Sys, id: string, k: Job, events: seq<Event>, now: nat): Sys {
    Sys(s.jobs[id := k], s.events + events, now)
  }

  function Apply(s: Sys, c: Call): Sys {
    var now := s.clock + c.tick;
    if Accepted(s, c) then Written(s, c.op.id, Outcome(s, c), Published(s, c), now) else s.(clock := now)
  }

  const Empty := Sys(map[], [], 0)

  function Run(calls: seq<Call>): Sys {
    if calls == [] then Empty else Apply(Run(calls[..|calls| - 1]), calls[|calls| - 1])
  }

  // ---------- the state invariant ----------

  predicate CountFits(s: JobStatus, n: int) {
    match s
    case Pending => n == 0
    case Running => 0 <= n <= 2
    case Completed => 0 <= n <= 2
    case Cancelled => 0 <= n <= 2
    case Retrying => 1 <= n <= 2
    case Failed => n == 3
    case RolledBack => 0 <= n <= 3
    case Unknown(_) => false
  }

  /** An optional time that is not after the next. */
  predicate NotAfter(a: Option<nat>, b: Option<nat>) { a.Some? && b.Some? ==> a.value <= b.value }

  ghost predicate JobInv(j: Job, clock: nat) {
    && CountFits(j.status, j.retryCount)
    && (j.completedAt.Some? <==> Terminal(j.status))
    && j.createdAt.Some?
    && NotAfter(j.createdAt, j.startedAt) && NotAfter(j.createdAt, j.completedAt) && NotAfter(j.startedAt, j.completedAt)
    && NotAfter(j.createdAt, Some(clock)) && NotAfter(j.startedAt, Some(clock)) && NotAfter(j.completedAt, Some(clock))
  }

  ghost predicate Inv(s: Sys) {
    forall id | id in s.jobs :: s.jobs[id].id == id && JobInv(s.jobs[id], s.clock)
  }

  lemma ApplyKeepsInv(s: Sys, c: Call)
    requires Inv(s)
    ensures Inv(Apply(s, c))
  {
    var now := s.clock + c.tick;
    forall id | id in s.jobs ensures JobInv(s.jobs[id], now) { LaterKeepsInv(s.jobs[id], s.clock, now); }
    if Accepted(s, c) { OutcomeInv(s, c); }
  }

  lemma LaterKeepsInv(j: Job, clock: nat, now: nat)
    requires JobInv(j, clock) && clock <= now
    ensures JobInv(j, now)
  {}

  lemma OutcomeInv(s: Sys, c: Call)
    requires Inv(s) && Accepted(s, c)
    ensures Outcome(s, c).id == c.op.id && JobInv(Outcome(s, c), s.clock + c.tick)
  {
    if !c.op.Create? { WriteKeepsInv(c.op, s.jobs[c.op.id], s.clock, s.clock + c.tick); }
  }

  lemma WriteKeepsInv(op: Op, j: Job, clock: nat, now: nat)
    requires JobInv(j, clock) && clock <= now && WriteOf(op, j, now).Some?
    ensures var k := JobAfter(j, WriteOf(op, j, now).value);
      k.id == j.id && JobInv(k, now)
  {}

  /** Over every run of the manager API the invariant holds of every job. */
  lemma {:induction false} RunKeepsInv(calls: seq<Call>)
    ensures Inv(Run(calls))
  {
    if calls != [] {
      RunKeepsInv(calls[..|calls| - 1]);
      ApplyKeepsInv(Run(calls[..|calls| - 1]), calls[|calls| - 1]);
    }
  }

  lemma CallKeepsTime(s: Sys, c: Call, id: string)
    requires Inv(s) && id in s.jobs && s.jobs[id].completedAt.Some?
    ensures id in Apply(s, c).jobs && Apply(s, c).jobs[id].completedAt == s.jobs[id].completedAt
  {
    if Accepted(s, c) && c.op.id == id { EndedKeepsTime(c.op, s.jobs[id], s.clock, s.clock + c.tick); }
    hide WriteOf;
    hide JobAfter;
  }

  /** Once set, a completion time is the job's for good, whatever calls follow. */
  lemma {:induction false} CompletionTimeIsWriteOnce(calls: seq<Call>, more: seq<Call>, id: string)
    requires id in Run(calls).jobs && Run(calls).jobs[id].completedAt.Some?
    ensures id in Run(calls + more).jobs
    ensures Run(calls + more).jobs[id].completedAt == Run(calls).jobs[id].completedAt
  {
    if more == [] {
      assert calls + more == calls;
    } else {
      hide Apply;
      hide Inv;
      var n := |more| - 1;
      CompletionTimeIsWriteOnce(calls, more[..n], id);
      RunKeepsInv(calls + more[..n]);
      assert (calls + more)[..|calls + more| - 1] == calls + more[..n];
      CallKeepsTime(Run(calls + more[..n]), more[n], id);
    }
  }

  lemma EndedKeepsTime(op: Op, j: Job, clock: nat, now: nat)
    requires JobInv(j, clock) && Terminal(j.status) && WriteOf(op, j, now).Some?
    ensures JobAfter(j, WriteOf(op, j, now).value).completedAt == j.completedAt
  {}

  // ---------- termination ----------

  /** Falls with every status change; at most 7. */
  function Rank(j: Job): int {
    match j.status
    case Pending => 7
    case Running => 6 - 2 * j.retryCount
    case Retrying => 7 - 2 * j.retryCount
    case Completed => 1
    case Failed => 1
    case _ => 0
  }

  function StartsLeft(j: Job): int {
    match j.status
    case Pending => 3
    case Running => 2 - j.retryCount
    case Retrying => 3 - j.retryCount
    case _ => 0
  }

  function StatusOf(s: Sys, id: string): Option<JobStatus> {
    if id in s.jobs then Some(s.jobs[id].status) else None
  }

  /** Status changes of an existing job along a run. */
  function Changes(calls: seq<Call>, id: string): nat {
    if calls == [] then 0
    else
      var s, s' := Run(calls[..|calls| - 1]), Run(calls);
      Changes(calls[..|calls| - 1], id) + (if id in s.jobs && StatusOf(s, id) != StatusOf(s', id) then 1 else 0)
  }

  /** How often the job has gone into running. */
  function Starts(calls: seq<Call>, id: string): nat {
    if calls == [] then 0
    else
      var s, s' := Run(calls[..|calls| - 1]), Run(calls);
      Starts(calls[..|calls| - 1], id)
      + (if StatusOf(s, id) != Some(Running) && StatusOf(s', id) == Some(Running) then 1 else 0)
  }

  /** How a job may move: down in rank if its status changes, and from an ended status only to rolled_back. */
  predicate MovesDown(j: Job, k: Job) {
    && 0 <= Rank(k) && 0 <= StartsLeft(k)
    && (j.status != k.status ==> Rank(k) < Rank(j))
    && (j.status == k.status ==> Rank(k) == Rank(j))
    && StartsLeft(k) + (if j.status != Running && k.status == Running then 1 else 0) <= StartsLeft(j)
    && (j.status in {Completed, Failed} ==> k.status in {j.status, RolledBack})
    && (Withdrawn(j.status) ==> k.status == j.status)
  }

  lemma WriteMovesDown(op: Op, j: Job, clock: nat, now: nat)
    requires JobInv(j, clock)
    ensures MovesDown(j, j)
    ensures WriteOf(op, j, now).Some? ==> MovesDown(j, JobAfter(j, WriteOf(op, j, now).value))
  {}

  /** Every status change strictly lowers the rank; ended jobs only ever become rolled_back. */
  lemma ChangeLowersRank(s: Sys, c: Call, id: string)
    requires Inv(s) && id in s.jobs
    ensures id in Apply(s, c).jobs
    ensures MovesDown(s.jobs[id], Apply(s, c).jobs[id])
  {
    hide MovesDown;
    hide JobInv;
    hide WriteOf;
    WriteMovesDown(c.op, s.jobs[id], s.clock, s.clock + c.tick);
  }

  lemma {:induction false} RankBudget(calls: seq<Call>, id: string)
    ensures var s := Run(calls);
      if id in s.jobs then Changes(calls, id) + Rank(s.jobs[id]) <= 7 && Starts(calls, id) + StartsLeft(s.jobs[id]) <= 3
      else Changes(calls, id) == 0 && Starts(calls, id) == 0
  {
    if calls != [] {
      var head := calls[..|calls| - 1];
      RankBudget(head, id);
      RunKeepsInv(head);
      if id in Run(head).jobs { ChangeLowersRank(Run(head), calls[|calls| - 1], id); }
    }
  }

  /** Under any caller, a job starts at most three times and changes status at most seven times. */
  lemma LifeIsBounded(calls: seq<Call>, id: string)
    ensures Starts(calls, id) <= 3 && Changes(calls, id) <= 7
  {
    RankBudget(calls, id);
    RunKeepsInv(calls);
    if id in Run(calls).jobs { ChangeLowersRank(Run(calls), Call(BindRun(id, ""), 0), id); }
  }

  // ---------- the event history ----------

  /** An event of one job's history, without the job's own fields. */
  datatype Mark = Plain(topic: Topic) | Back(topic: Topic, previous: JobStatus)

  function MarkOf(e: Event): Mark {
    if e.Lifecycle? then Plain(e.topic) else Back(e.topic, e.previous)
  }

  /** The events about one job, in order. */
  function History(events: seq<Event>, id: string): seq<Mark> {
    if events == [] then []
    else
      var last := events[|events| - 1];
      History(events[..|events| - 1], id) + (if last.jobId == id then [MarkOf(last)] else [])
  }

  /** Creation, then k starts. */
  function Begun(k: nat): seq<Mark> {
    [Plain(JobCreated)] + seq(k, _ => Plain(JobStarted))
  }

  /** The histories a job in a given state can have. */
  ghost predicate Told(j: Job, h: seq<Mark>) {
    var n := j.retryCount;
    && 0 <= n
    && match j.status
       case Pending => h == Begun(0)
       case Running => h == Begun(n + 1)
       case Retrying => h == Begun(n)
       case Completed => h == Begun(n + 1) + [Plain(JobCompleted)]
       case Failed => h == Begun(n) + [Plain(JobFailed)]
       case Cancelled =>
         || (n == 0 && h == Begun(0))
         || h == Begun(n + 1)
         || (n == 0 && h == Begun(0) + [Back(JobCancelled, Pending)])
         || h == Begun(n + 1) + [Back(JobCancelled, Running)]
         || (1 <= n && h == Begun(n) + [Back(JobCancelled, Retrying)])
       case RolledBack =>
         || h == Begun(n + 1) + [Plain(JobCompleted), Back(JobRolledBack, Completed)]
         || (n == 3 && h == Begun(n) + [Plain(JobFailed), Back(JobRolledBack, Failed)])
       case Unknown(_) => false
  }

  ghost predicate AllTold(s: Sys) {
    && (forall id | id in s.jobs :: Told(s.jobs[id], History(s.events, id)))
    && (forall id: string | id !in s.jobs :: History(s.events, id) == [])
  }

  lemma HistoryAppend(events: seq<Event>, more: seq<Event>, id: string)
    requires |more| <= 1
    ensures History(events + more, id)
         == History(events, id) + (if more != [] && more[0].jobId == id then [MarkOf(more[0])] else [])
  {
    if more == [] { assert events + more == events; }
    else { assert (events + more)[..|events|] == events; }
  }

  /** One accepted call extends its job's history as the job's new state allows. */
  lemma WriteIsTold(op: Op, j: Job, clock: nat, now: nat, h: seq<Mark>)
    requires JobInv(j, clock) && Told(j, h) && WriteOf(op, j, now).Some?
    ensures var k := JobAfter(j, WriteOf(op, j, now).value);
      var e := EventsOf(op, j, k);
      && |e| <= 1 && (e != [] ==> e[0].jobId == j.id)
      && Told(k, if e == [] then h else h + [MarkOf(e[0])])
  {}

  lemma WrittenIsTold(s: Sys, id: string, k: Job, events: seq<Event>, now: nat)
    requires AllTold(s) && |events| <= 1 && (events != [] ==> events[0].jobId == id)
    requires Told(k, History(s.events, id) + (if events == [] then [] else [MarkOf(events[0])]))
    ensures AllTold(Written(s, id, k, events, now))
  {
    var s' := Written(s, id, k, events, now);
    forall i: string | i != id ensures History(s'.events, i) == History(s.events, i) {
      HistoryAppend(s.events, events, i);
    }
    HistoryAppend(s.events, events, id);
    assert forall i | i in s.jobs && i != id :: s'.jobs[i] == s.jobs[i];
    assert Told(s'.jobs[id], History(s'.events, id));
  }

  lemma CreationIsTold(s: Sys, c: Call)
    requires AllTold(s) && Accepted(s, c) && c.op.Create?
    ensures Published(s, c) == [LifecycleEvent(JobCreated, Outcome(s, c))] && Outcome(s, c).id == c.op.id
    ensures Told(Outcome(s, c), History(s.events, c.op.id) + [Plain(JobCreated)])
  {
    assert [] + [Plain(JobCreated)] == Begun(0);
  }

  lemma OutcomeIsTold(s: Sys, c: Call)
    requires Inv(s) && AllTold(s) && Accepted(s, c)
    ensures var id, e := c.op.id, Published(s, c);
      && |e| <= 1 && (e != [] ==> e[0].jobId == id)
      && Told(Outcome(s, c), History(s.events, id) + (if e == [] then [] else [MarkOf(e[0])]))
  {
    var id, h := c.op.id, History(s.events, c.op.id);
    hide Told;
    hide JobInv;
    hide JobAfter;
    hide EventsOf;
    hide WriteOf;
    hide History;
    if c.op.Create? {
      CreationIsTold(s, c);
    } else {
      WriteIsTold(c.op, s.jobs[id], s.clock, s.clock + c.tick, h);
      assert h + [] == h;
    }
  }

  lemma ApplyIsTold(s: Sys, c: Call)
    requires Inv(s) && AllTold(s)
    ensures AllTold(Apply(s, c))
  {
    hide Told;
    hide Outcome;
    hide Published;
    if Accepted(s, c) {
      OutcomeIsTold(s, c);
      WrittenIsTold(s, c.op.id, Outcome(s, c), Published(s, c), s.clock + c.tick);
    }
  }

  /**
   * With an accepting publisher, over every run, each job's event history is one its present
   * state allows: creation, at most three starts, and then at most one ending, which only a
   * rollback may follow.
   */
  lemma {:induction false} HistoriesAreTold(calls: seq<Call>)
    ensures AllTold(Run(calls))
  {
    if calls != [] {
      var head := calls[..|calls| - 1];
      RunKeepsInv(head);
      HistoriesAreTold(head);
      ApplyIsTold(Run(head), calls[|calls| - 1]);
    }
  }

  // ---------- totals ----------

  function Count(events: seq<Event>, m: Mark): nat {
    if events == [] then 0
    else Count(events[..|events| - 1], m) + (if MarkOf(events[|events| - 1]) == m then 1 else 0)
  }

  function JobsIn(s: Sys, status: JobStatus): set<string> {
    set id | id in s.jobs && s.jobs[id].status == status
  }

  lemma CountAppend(events: seq<Event>, more: seq<Event>, m: Mark)
    requires |more| <= 1
    ensures Count(events + more, m) == Count(events, m) + (if more != [] && MarkOf(more[0]) == m then 1 else 0)
  {
    if more == [] { assert events + more == events; }
    else { assert (events + more)[..|events|] == events; }
  }

  /** The ended jobs of one kind, past and present, against the events that told of them. */
  ghost predicate Balanced(s: Sys, status: JobStatus, topic: Topic) {
    Count(s.events, Plain(topic)) == |JobsIn(s, status)| + Count(s.events, Back(JobRolledBack, status))
  }

  /** Writing one job changes the head count of a status by what it gained or lost. */
  lemma HeadCount(s: Sys, id: string, k: Job, events: seq<Event>, now: nat, status: JobStatus)
    ensures |JobsIn(Written(s, id, k, events, now), status)|
            + (if StatusOf(s, id) == Some(status) then 1 else 0)
         == |JobsIn(s, status)| + (if k.status == status then 1 else 0)
  {
    var a, b := JobsIn(s, status), JobsIn(Written(s, id, k, events, now), status);
    SizeWithout(a, id);
    SizeWithout(b, id);
    assert a - {id} == b - {id} by {
      forall i: string ensures i in a - {id} <==> i in b - {id} {}
    }
  }

  lemma SizeWithout(a: set<string>, id: string)
    ensures |a| == |a - {id}| + (if id in a then 1 else 0)
  {
    if id in a { assert a == (a - {id}) + {id}; } else { assert a == a - {id}; }
  }

  lemma WrittenKeepsBalance(s: Sys, id: string, k: Job, events: seq<Event>, now: nat, status: JobStatus, topic: Topic)
    requires Balanced(s, status, topic) && |events| <= 1
    requires var told := events != [] && MarkOf(events[0]) == Plain(topic);
      var back := events != [] && MarkOf(events[0]) == Back(JobRolledBack, status);
      (if told then 1 else 0) + (if StatusOf(s, id) == Some(status) then 1 else 0)
      == (if k.status == status then 1 else 0) + (if back then 1 else 0)
    ensures Balanced(Written(s, id, k, events, now), status, topic)
  {
    HeadCount(s, id, k, events, now, status);
    CountAppend(s.events, events, Plain(topic));
    CountAppend(s.events, events, Back(JobRolledBack, status));
  }

  /** What an accepted call tells of completion and failure makes up for the head count it changes. */
  lemma CallEnds(s: Sys, c: Call, status: JobStatus, topic: Topic)
    requires Inv(s) && Accepted(s, c)
    requires (status == Completed && topic == JobCompleted) || (status == Failed && topic == JobFailed)
    ensures var e, was, now := Published(s, c), StatusOf(s, c.op.id), Outcome(s, c).status;
      && |e| <= 1
      && (if e != [] && MarkOf(e[0]) == Plain(topic) then 1 else 0) + (if was == Some(status) then 1 else 0)
         == (if now == status then 1 else 0) + (if e != [] && MarkOf(e[0]) == Back(JobRolledBack, status) then 1 else 0)
  {}

  lemma ApplyKeepsBalance(s: Sys, c: Call, status: JobStatus, topic: Topic)
    requires Inv(s) && Balanced(s, status, topic)
    requires (status == Completed && topic == JobCompleted) || (status == Failed && topic == JobFailed)
    ensures Balanced(Apply(s, c), status, topic)
  {
    if Accepted(s, c) {
      CallEnds(s, c, status, topic);
      hide Inv;
      hide Outcome;
      hide Published;
      hide StatusOf;
      hide MarkOf;
      hide Balanced;
      hide Accepted;
      WrittenKeepsBalance(s, c.op.id, Outcome(s, c), Published(s, c), s.clock + c.tick, status, topic);
    } else {
      RefusedHeadCount(s, c);
    }
  }

  /**
   * Over every run, the completed events number the jobs now completed plus those rolled
   * back from completed, and likewise for failed.
   */
  lemma {:induction false} EventTotals(calls: seq<Call>)
    ensures Balanced(Run(calls), Completed, JobCompleted) && Balanced(Run(calls), Failed, JobFailed)
  {
    if calls != [] {
      var head := calls[..|calls| - 1];
      RunKeepsInv(head);
      EventTotals(head);
      ApplyKeepsBalance(Run(head), calls[|calls| - 1], Completed, JobCompleted);
      ApplyKeepsBalance(Run(head), calls[|calls| - 1], Failed, JobFailed);
    } else {
      assert JobsIn(Empty, Completed) == {} && JobsIn(Empty, Failed) == {};
    }
  }

  /** The events of one topic. */
  function TopicCount(events: seq<Event>, topic: Topic): nat {
    if events == [] then 0
    else TopicCount(events[..|events| - 1], topic) + (if events[|events| - 1].topic == topic then 1 else 0)
  }

  /** The calls of one kind that were accepted along a run. */
  function AcceptedCalls(calls: seq<Call>, kind: Op -> bool): nat {
    if calls == [] then 0
    else
      var head, last := calls[..|calls| - 1], calls[|calls| - 1];
      AcceptedCalls(head, kind) + (if kind(last.op) && Accepted(Run(head), last) then 1 else 0)
  }

  lemma TopicAppend(events: seq<Event>, more: seq<Event>, topic: Topic)
    requires |more| <= 1
    ensures TopicCount(events + more, topic)
         == TopicCount(events, topic) + (if more != [] && more[0].topic == topic then 1 else 0)
  {
    if more == [] { assert events + more == events; }
    else { assert (events + more)[..|events|] == events; }
  }

  predicate Tells(events: seq<Event>, topic: Topic) { events != [] && events[0].topic == topic }

  /** What an accepted call tells, by its kind and by the status it leaves. */
  lemma CallTells(s: Sys, c: Call)
    requires Inv(s) && Accepted(s, c)
    ensures var e, was, now := Published(s, c), StatusOf(s, c.op.id), Outcome(s, c).status;
      && |e| <= 1
      && (Tells(e, JobCreated) <==> c.op.id !in s.jobs)
      && (Tells(e, JobStarted) <==> c.op.Start?)
      && (was == Some(RolledBack) ==> now == RolledBack)
      && (Tells(e, JobRolledBack) <==> now == RolledBack && was != Some(RolledBack))
      && (was == Some(Cancelled) ==> now == Cancelled)
      && (Tells(e, JobCancelled) || c.op.Cancel? <==> now == Cancelled && was != Some(Cancelled))
      && !(Tells(e, JobCancelled) && c.op.Cancel?)
  {}

  /** What one accepted call adds to each of these totals. */
  lemma CallTally(s: Sys, c: Call, topic: Topic)
    requires Inv(s) && Accepted(s, c)
    ensures var s', told := Apply(s, c), Tells(Published(s, c), topic);
      TopicCount(s'.events, topic) == TopicCount(s.events, topic) + (if told then 1 else 0)
    ensures |Apply(s, c).jobs| == |s.jobs| + (if c.op.id in s.jobs then 0 else 1)
  {
    CallTells(s, c);
    hide Published;
    hide Outcome;
    TopicAppend(s.events, Published(s, c), topic);
    var after := Apply(s, c).jobs;
    SizeWithout(after.Keys, c.op.id);
    SizeWithout(s.jobs.Keys, c.op.id);
    assert after.Keys - {c.op.id} == s.jobs.Keys - {c.op.id};
    KeysCount(s.jobs);
    KeysCount(after);
  }

  /** Those of it that concern the head count of a status. */
  lemma CallHeadCount(s: Sys, c: Call, status: JobStatus)
    requires Accepted(s, c)
    ensures |JobsIn(Apply(s, c), status)| + (if StatusOf(s, c.op.id) == Some(status) then 1 else 0)
         == |JobsIn(s, status)| + (if Outcome(s, c).status == status then 1 else 0)
  {
    HeadCount(s, c.op.id, Outcome(s, c), Published(s, c), s.clock + c.tick, status);
  }

  lemma KeysCount(jobs: map<string, Job>)
    ensures |jobs| == |jobs.Keys|
  {}

  lemma RefusedHeadCount(s: Sys, c: Call)
    requires !Accepted(s, c)
    ensures Apply(s, c).jobs == s.jobs && Apply(s, c).events == s.events
    ensures forall status :: JobsIn(Apply(s, c), status) == JobsIn(s, status)
  {}

  const IsStart: Op -> bool := (op: Op) => op.Start?
  const IsCancel: Op -> bool := (op: Op) => op.Cancel?

  /** The totals after as many accepted starts and cancel calls. */
  ghost predicate Tallied(s: Sys, starts: nat, cancels: nat) {
    && TopicCount(s.events, JobCreated) == |s.jobs|
    && TopicCount(s.events, JobRolledBack) == |JobsIn(s, RolledBack)|
    && TopicCount(s.events, JobStarted) == starts
    && TopicCount(s.events, JobCancelled) + cancels == |JobsIn(s, Cancelled)|
  }

  lemma TalliedNext(s: Sys, c: Call, starts: nat, cancels: nat)
    requires Inv(s) && Tallied(s, starts, cancels)
    ensures Tallied(Apply(s, c), starts + (if c.op.Start? && Accepted(s, c) then 1 else 0),
                    cancels + (if c.op.Cancel? && Accepted(s, c) then 1 else 0))
  {
    if Accepted(s, c) {
      CallTells(s, c);
      CallTally(s, c, JobCreated);
      CallTally(s, c, JobRolledBack);
      CallTally(s, c, JobStarted);
      CallTally(s, c, JobCancelled);
      CallHeadCount(s, c, RolledBack);
      CallHeadCount(s, c, Cancelled);
      hide Apply;
      hide Outcome;
      hide Published;
      hide JobsIn;
      hide TopicCount;
    } else {
      RefusedHeadCount(s, c);
    }
  }

  /**
   * Over every run: one created event per job; one rolled_back event per job now rolled back;
   * one started event per accepted start; and each job now cancelled was cancelled either by
   * a rollback, with one cancelled event, or by an accepted cancel call, with none.
   */
  lemma {:induction false} CallTotals(calls: seq<Call>)
    ensures var s := Run(calls);
      && TopicCount(s.events, JobCreated) == |s.jobs|
      && TopicCount(s.events, JobRolledBack) == |JobsIn(s, RolledBack)|
      && TopicCount(s.events, JobStarted) == AcceptedCalls(calls, IsStart)
      && TopicCount(s.events, JobCancelled) + AcceptedCalls(calls, IsCancel) == |JobsIn(s, Cancelled)|
  {
    if calls != [] {
      var head, last := calls[..|calls| - 1], calls[|calls| - 1];
      hide Apply;
      hide Accepted;
      hide TopicCount;
      hide JobsIn;
      hide Inv;
      CallTotals(head);
      RunKeepsInv(head);
      TalliedNext(Run(head), last, AcceptedCalls(head, IsStart), AcceptedCalls(head, IsCancel));
    } else {
      assert JobsIn(Empty, Cancelled) == {} && JobsIn(Empty, RolledBack) == {};
    }
  }
}
