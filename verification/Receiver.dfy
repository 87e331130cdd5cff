/** The event receiver and the dispatcher, run without interference from other calls. */
module Receiver {
  import opened Common
  import opened Entities
  import opened Jobs
  import M = Manager
  import Registry
  import D = Delivery

  const RECEIVED_TYPE := "ReceivedEvent"

  function RecordProps(eventId: string, topic: string, agencyId: string, source: string, payload: string, now: nat): Props {
    map[PEventId := Text(eventId), PTopic := Text(topic), Extra("agency_id") := Text(agencyId),
        PSource := Text(source), PPayload := Text(payload), Extra("received_at") := Stamp(now)]
  }

  /** A record of the event is stored. */
  ghost predicate Recorded(store: Store, agency: string, eventId: string) {
    exists k | k in store :: Selects(store[k], agency, RECEIVED_TYPE, map[PEventId := eventId])
  }

  lemma FreshRecordIsRecorded(before: Store, after: Store, agency: string, e: Entity, eventId: string)
    requires Added(before, after, e) && e.agency == agency && e.typeId == RECEIVED_TYPE
    requires PEventId in e.props && e.props[PEventId] == Text(eventId)
    ensures Recorded(after, agency, eventId)
  {
    assert after[Key(agency, e.id)] == e;
  }

  class EventReceiver {
    const backend: DataManager
    const agency: string
    const hasDispatcher: bool
    var spawned: seq<(string, string)>

    constructor (backend: DataManager, agency: string, hasDispatcher: bool)
      ensures this.backend == backend && this.agency == agency && this.hasDispatcher == hasDispatcher && spawned == []
    {
      this.backend := backend;
      this.agency := agency;
      this.hasDispatcher := hasDispatcher;
      spawned := [];
    }

    /**
     * Acknowledges a delivery. A dispatch is spawned only after this delivery's own record is
     * stored; an acknowledged event with an id is on record.
     */
    method NotifyEvent(eventId: string, topic: string, agencyId: string, source: string, payload: string, now: nat)
      returns (acknowledged: bool)
      requires WellKeyed(backend.entities)
      modifies backend, `spawned
      ensures WellKeyed(backend.entities)
      ensures acknowledged ==> Recorded(backend.entities, agency, eventId)
      ensures !acknowledged ==> spawned == old(spawned) && !backend.reliable
      ensures backend.entities != old(backend.entities) ==>
        exists id :: Added(old(backend.entities), backend.entities,
                           Entity(id := id, agency := agency, typeId := "ReceivedEvent", props := map[
                             PEventId := Text(eventId), PTopic := Text(topic), Extra("agency_id") := Text(agencyId),
                             PSource := Text(source), PPayload := Text(payload), Extra("received_at") := Stamp(now)]))
      ensures spawned == old(spawned)
              || (acknowledged && hasDispatcher && spawned == old(spawned) + [(topic, payload)]
                  && backend.entities != old(backend.entities))
      ensures backend.reliable ==>
        var duplicate := eventId != "" && Recorded(old(backend.entities), agency, eventId);
        && (duplicate <==> backend.entities == old(backend.entities))
        && spawned == (if duplicate || !hasDispatcher then old(spawned) else old(spawned) + [(topic, payload)])
    {
      ghost var before := backend.entities;
      if eventId != "" {
        var existing := backend.ListEntities(agency, RECEIVED_TYPE, map[PEventId := eventId]);
        if existing.Ok? && |existing.value| > 0 {
          var e := existing.value[0];
          assert Key(e.agency, e.id) in backend.entities;
          return true;
        }
        assert backend.reliable ==> !Recorded(before, agency, eventId);
      }
      var written := backend.CreateEntity(agency, RECEIVED_TYPE,
                                          RecordProps(eventId, topic, agencyId, source, payload, now));
      if written.Err? { return false; }
      FreshRecordIsRecorded(before, backend.entities, agency, written.value, eventId);
      assert Key(agency, written.value.id) in backend.entities && Key(agency, written.value.id) !in before;
      if hasDispatcher { spawned := spawned + [(topic, payload)]; }
      return true;
    }
  }

  /** The ids on record in the store are those on record in the model of deliveries. */
  ghost predicate Tracks(store: Store, agency: string, s: D.State) {
    forall id | id != "" :: Recorded(store, agency, id) <==> id in s.records
  }

  /** A delivery from its arrival to its end, no call failing. */
  ghost function Delivered(s: D.State, id: string): D.State {
    var step := D.Step(|s.phases|, NoFault);
    D.Next(D.Next(D.Next(D.Next(s, D.Arrive(id)), step), step), step)
  }

  /** One record more puts its own event on record, and no other. */
  lemma RecordAdds(before: Store, after: Store, agency: string, eventId: string, e: Entity, id: string)
    requires Added(before, after, e) && e.agency == agency && e.typeId == RECEIVED_TYPE
    requires PEventId in e.props && e.props[PEventId] == Text(eventId)
    ensures Recorded(after, agency, id) <==> Recorded(before, agency, id) || id == eventId
  {
    var k := Key(e.agency, e.id);
    assert after[k] == e;
    assert Selects(e, agency, RECEIVED_TYPE, map[PEventId := id]) <==> id == eventId by {
      assert PEventId in map[PEventId := id];
    }
    forall x | x in before ensures x in after && after[x] == before[x] {}
  }

  /** The receiver, when nothing fails, handles a delivery as the model of deliveries does. */
  method NotifyIsDelivery(receiver: EventReceiver, ghost s: D.State, eventId: string, topic: string, agencyId: string,
                          source: string, payload: string, now: nat) returns (acknowledged: bool)
    requires WellKeyed(receiver.backend.entities) && receiver.backend.reliable && receiver.hasDispatcher
    requires Tracks(receiver.backend.entities, receiver.agency, s)
    modifies receiver.backend, receiver`spawned
    ensures acknowledged
    ensures Tracks(receiver.backend.entities, receiver.agency, Delivered(s, eventId))
    ensures receiver.spawned == old(receiver.spawned)
              + if Delivered(s, eventId).dispatched == s.dispatched then [] else [(topic, payload)]
  {
    ghost var before := receiver.backend.entities;
    acknowledged := receiver.NotifyEvent(eventId, topic, agencyId, source, payload, now);
    D.DeliveryEffect(s, eventId, NoFault);
    ghost var after := receiver.backend.entities;
    if after != before {
      ghost var id :| Added(before, after, Entity(id, receiver.agency, RECEIVED_TYPE,
                                                  RecordProps(eventId, topic, agencyId, source, payload, now)));
      ghost var e := Entity(id, receiver.agency, RECEIVED_TYPE, RecordProps(eventId, topic, agencyId, source, payload, now));
      forall x: string ensures Recorded(after, receiver.agency, x) <==> Recorded(before, receiver.agency, x) || x == eventId {
        RecordAdds(before, after, receiver.agency, eventId, e, x);
      }
    }
    hide Recorded;
    hide D.Next;
  }

  // ---------- one dispatch ----------

  /** The job a dispatch without faults leaves behind. */
  function DispatchedJob(started: Job, output: Output, ended: nat): Job {
    match output
    case RunError(msg) => started.(status := Retrying, error := msg, retryCount := 1)
    case Ran(isError, result, error, minted) =>
      if isError then started.(status := Retrying, error := error, retryCount := 1)
      else started.(status := Completed, result := result, completedAt := Some(ended),
                    workflowRunId := if started.workflowRunId == "" then minted else started.workflowRunId)
  }

  /** The store is the old one with one job more, which reads as j. */
  ghost predicate OneJobMore(before: Store, after: Store, k: Key, j: Job) {
    && k !in before && M.IsJob(after, k)
    && after == before[k := after[k]]
    && JobFromEntity(after[k]) == j
  }

  /** The store is the old one with one job more, which reads as one of js. */
  ghost predicate OneJobAmong(before: Store, after: Store, k: Key, js: set<Job>) {
    && k !in before && M.IsJob(after, k)
    && after == before[k := after[k]]
    && JobFromEntity(after[k]) in js
  }

  /**
   * A call on that job moves it by the call's write; where storage fails, the write may have
   * taken effect all the same.
   */
  lemma CallMovesJob(original: Store, before: Store, after: Store, k: Key, j: Job, w: Write, r: Result<Job>)
    requires OneJobMore(original, before, k, j) && Sendable(w)
    requires M.Called(before, after, k, true, PatchOf(w), r)
    ensures r.Ok? ==> r.value == JobAfter(j, w) && OneJobMore(original, after, k, r.value)
    ensures r.Err? ==>
      && r.error == StorageFailure
      && (OneJobMore(original, after, k, j) || OneJobMore(original, after, k, JobAfter(j, w)))
  {
    PatchRefinesTransition(before[k], w);
  }

  /** The guards of the calls a dispatch makes, on the job as it reads. */
  lemma GuardHolds(store: Store, k: Key)
    requires M.IsJob(store, k)
    ensures var j := JobFromEntity(store[k]);
      && (j.status == Pending ==> M.HasStatus(store, k, {"pending", "retrying"}))
      && (j.status == Running ==> M.HasStatus(store, k, {"running"}))
      && M.NextCount(store, k) == j.retryCount + 1
  {
    M.GuardTexts(store[k]);
  }

  // ---------- one dispatch under faults ----------

  /** The states in which faults may leave a started job, the faultless one among them. */
  function Outcomes(started: Job, output: Output, now: nat): set<Job> {
    match output
    case RunError(msg) => {started, JobAfter(started, WFail(1, msg, now))}
    case Ran(isError, result, error, minted) =>
      if isError then {started, JobAfter(started, WFail(1, error, now))}
      else
        var bound := if started.workflowRunId == "" then started.(workflowRunId := minted) else started;
        {started, bound, JobAfter(started, WComplete(result, now)), JobAfter(bound, WComplete(result, now))}
  }

  /** The states a successful run passes through, bound to the minted run where none was inherited. */
  lemma SuccessStates(started: Job, result: string, minted: string, now: nat)
    ensures var output := Ran(false, result, "", minted);
      var bound := if started.workflowRunId == "" then started.(workflowRunId := minted) else started;
      && JobAfter(started, WBindRun(minted)) == started.(workflowRunId := minted)
      && JobAfter(bound, WComplete(result, now)).status == Completed
      && JobAfter(started, WComplete(result, now)).status == Completed
      && DispatchedJob(started, output, now) == JobAfter(bound, WComplete(result, now))
      && Outcomes(started, output, now)
         == {started, bound, JobAfter(started, WComplete(result, now)), JobAfter(bound, WComplete(result, now))}
  {}

  /** The events that a dispatch may have told of its job, created so and now standing so. */
  function Tellable(created: Job, j: Job): seq<Event> {
    [LifecycleEvent(JobCreated, created)]
    + (if j.status == Pending then [] else [LifecycleEvent(JobStarted, created)])
    + (if j.status == Completed then [LifecycleEvent(JobCompleted, j)] else [])
  }

  /** Some of these events, in order, have been added. */
  ghost predicate SomeAdded(before: seq<Event>, after: seq<Event>, events: seq<Event>)
    decreases |events|
  {
    if events == [] then after == before
    else
      var init, last := events[..|events| - 1], events[|events| - 1];
      exists mid :: SomeAdded(before, mid, init) && (after == mid || after == mid + [last])
  }

  lemma OneMoreAdded(before: seq<Event>, mid: seq<Event>, after: seq<Event>, events: seq<Event>, e: Event)
    requires SomeAdded(before, mid, events) && (after == mid || after == mid + [e])
    ensures SomeAdded(before, after, events + [e])
  {
    assert (events + [e])[..|events|] == events;
  }

  lemma OneAdded(before: seq<Event>, after: seq<Event>, e: Event)
    requires after == before || after == before + [e]
    ensures SomeAdded(before, after, [e])
  {
    OneMoreAdded(before, before, after, [], e);
    assert [] + [e] == [e];
  }

  /** Whatever fails: no trace, or one job more, in a state its dispatch passes through, some of its events told. */
  ghost predicate Dispatched(before: Store, after: Store, toldBefore: seq<Event>, toldAfter: seq<Event>, k: Key,
                             created: Job, output: Output, t1: nat, t2: nat)
  {
    || (after == before && toldAfter == toldBefore)
    || (OneJobAmong(before, after, k, {created} + Outcomes(JobAfter(created, WStart(t1)), output, t2))
        && SomeAdded(toldBefore, toldAfter, Tellable(created, JobFromEntity(after[k]))))
  }

  /** A dispatch that got no further than starting its job. */
  lemma BegunIsDispatched(before: Store, after: Store, toldBefore: seq<Event>, toldAfter: seq<Event>, k: Key,
                          created: Job, output: Output, t1: nat, t2: nat)
    requires created.status == Pending
    requires OneJobAmong(before, after, k, {created, JobAfter(created, WStart(t1))})
    requires SomeAdded(toldBefore, toldAfter, [LifecycleEvent(JobCreated, created)])
    ensures Dispatched(before, after, toldBefore, toldAfter, k, created, output, t1, t2)
  {
    hide SomeAdded;
    var j, first := JobFromEntity(after[k]), [LifecycleEvent(JobCreated, created)];
    OneMoreAdded(toldBefore, toldAfter, toldAfter, first, LifecycleEvent(JobStarted, created));
    assert Tellable(created, j) == if j.status == Pending then first else first + [LifecycleEvent(JobStarted, created)];
  }

  /** A dispatch that started its job, which then stayed or ended. */
  lemma FinishedIsDispatched(before: Store, after: Store, toldBefore: seq<Event>, mid: seq<Event>, toldAfter: seq<Event>,
                             k: Key, created: Job, output: Output, t1: nat, t2: nat)
    requires created.status == Pending
    requires OneJobAmong(before, after, k, Outcomes(JobAfter(created, WStart(t1)), output, t2))
    requires SomeAdded(toldBefore, mid, [LifecycleEvent(JobCreated, created), LifecycleEvent(JobStarted, created)])
    requires var j := JobFromEntity(after[k]);
      toldAfter == mid || (j.status == Completed && toldAfter == mid + [LifecycleEvent(JobCompleted, j)])
    ensures Dispatched(before, after, toldBefore, toldAfter, k, created, output, t1, t2)
  {
    hide SomeAdded;
    var j, first := JobFromEntity(after[k]), [LifecycleEvent(JobCreated, created), LifecycleEvent(JobStarted, created)];
    OneMoreAdded(toldBefore, mid, toldAfter, first, LifecycleEvent(JobCompleted, j));
    assert Tellable(created, j) == if j.status == Completed then first + [LifecycleEvent(JobCompleted, j)] else first;
  }

  class FunctionsDispatcher {
    const mgr: M.FunctionsManager
    const runner: Registry.BinaryRunner
    const agency: string

    constructor (mgr: M.FunctionsManager, runner: Registry.BinaryRunner, agency: string)
      ensures this.mgr == mgr && this.runner == runner && this.agency == agency
    {
      this.mgr := mgr;
      this.runner := runner;
      this.agency := agency;
    }

    /**
     * Drives one job from creation to its outcome. Without faults a successful run ends
     * completed, its completion event bearing the inherited or the minted run id; a failing
     * run ends retrying, and nothing here starts it again. With any faults, there is at most
     * the one job more, in a state on that way, and no event but some of its own.
     */
    method Dispatch(topic: string, payload: string, taskId: string, run: string, output: Output,
                    t0: nat, t1: nat, t2: nat) returns (ghost id: string, ghost name: Option<string>)
      requires mgr.Valid()
      modifies mgr.dm, mgr.pub
      ensures mgr.Valid()
      ensures runner.reliable ==> Registry.Finds(runner.files, topic, payload, name)
      ensures name.None? ==> mgr.dm.entities == old(mgr.dm.entities) && mgr.Told() == old(mgr.Told())
      ensures name.Some? ==>
        var created := NewJob(id, agency, name.value, topic, payload, taskId, run, t0);
        Dispatched(old(mgr.dm.entities), mgr.dm.entities, old(mgr.Told()), mgr.Told(), Key(agency, id),
                   created, output, t1, t2)
      ensures mgr.Reliable() && name.Some? ==>
        var created := NewJob(id, agency, name.value, topic, payload, taskId, run, t0);
        var started := created.(status := Running, startedAt := Some(t1));
        var final := DispatchedJob(started, output, t2);
        && OneJobMore(old(mgr.dm.entities), mgr.dm.entities, Key(agency, id), final)
        && mgr.Told() == old(mgr.Told())
             + [LifecycleEvent(JobCreated, created), LifecycleEvent(JobStarted, started)]
             + (if final.status == Completed then [LifecycleEvent(JobCompleted, final)] else [])
    {
      id := "";
      var found := runner.Lookup(topic, payload);
      name := found;
      if found.None? { return; }
      ghost var original, told := mgr.dm.entities, mgr.Told();
      var started;
      started, id := Begin(found.value, topic, payload, taskId, run, t0, t1);
      ghost var created := NewJob(id, agency, found.value, topic, payload, taskId, run, t0);
      if started.None? {
        if mgr.dm.entities != original {
          BegunIsDispatched(original, mgr.dm.entities, told, mgr.Told(), Key(agency, id), created, output, t1, t2);
        }
        return;
      }
      ghost var mid := mgr.Told();
      Finish(original, started.value, output, t2);
      FinishedIsDispatched(original, mgr.dm.entities, told, mid, mgr.Told(), Key(agency, id), created, output, t1, t2);
    }

    /** The first half: creates the job and starts it. */
    method Begin(name: string, topic: string, payload: string, taskId: string, run: string, t0: nat, t1: nat)
      returns (started: Option<Job>, ghost id: string)
      requires mgr.Valid()
      modifies mgr.dm, mgr.pub
      ensures mgr.Valid()
      ensures mgr.Reliable() ==> started.Some?
      ensures started.None? ==>
        var created := NewJob(id, agency, name, topic, payload, taskId, run, t0);
        || (mgr.dm.entities == old(mgr.dm.entities) && mgr.Told() == old(mgr.Told()))
        || (OneJobAmong(old(mgr.dm.entities), mgr.dm.entities, Key(agency, id), {created, JobAfter(created, WStart(t1))})
            && SomeAdded(old(mgr.Told()), mgr.Told(), [LifecycleEvent(JobCreated, created)]))
      ensures started.Some? ==>
        var created := NewJob(id, agency, name, topic, payload, taskId, run, t0);
        var told := [LifecycleEvent(JobCreated, created), LifecycleEvent(JobStarted, created)];
        && started.value == JobAfter(created, WStart(t1))
        && OneJobMore(old(mgr.dm.entities), mgr.dm.entities, Key(agency, id), started.value)
        && SomeAdded(old(mgr.Told()), mgr.Told(), told)
        && (mgr.Reliable() ==> mgr.Told() == old(mgr.Told()) + told)
    {
      hide SomeAdded;
      hide JobFromEntity;
      hide TextProp;
      hide M.HasStatus;
      hide M.NextCount;
      ghost var original, told := mgr.dm.entities, mgr.Told();
      var job := mgr.CreateJob(agency, name, topic, payload, taskId, run, t0);
      ghost var before := mgr.dm.entities;
      id := "";
      if job.Err? {
        if before != original {
          id :| Added(original, before,
                      Entity(id, agency, JOB_TYPE, NewJobProps(name, topic, payload, taskId, run, t0)));
          CreationRefinesNewJob(id, agency, name, topic, payload, taskId, run, t0);
          OneAdded(told, told, LifecycleEvent(JobCreated, NewJob(id, agency, name, topic, payload, taskId, run, t0)));
        }
        return None, id;
      }
      id := job.value.id;
      ghost var created, k, mid := job.value, Key(agency, id), mgr.Told();
      CreationRefinesNewJob(id, agency, name, topic, payload, taskId, run, t0);
      assert OneJobMore(original, before, k, created);
      M.AnnouncesStoredFields(before[k], JobCreated);
      OneAdded(told, mid, LifecycleEvent(JobCreated, created));
      GuardHolds(before, k);
      job := mgr.StartJob(agency, job.value.id, t1);
      CallMovesJob(original, before, mgr.dm.entities, k, created, WStart(t1), job);
      if job.Err? { return None, id; }
      M.AnnouncesStoredFields(mgr.dm.entities[k], JobStarted);
      OneMoreAdded(told, mid, mgr.Told(), [LifecycleEvent(JobCreated, created)], LifecycleEvent(JobStarted, created));
      assert [LifecycleEvent(JobCreated, created)] + [LifecycleEvent(JobStarted, created)]
          == [LifecycleEvent(JobCreated, created), LifecycleEvent(JobStarted, created)];
      started := Some(job.value);
    }

    /** The second half: the binary's output decides between failure and completion. */
    method Finish(ghost original: Store, started: Job, output: Output, now: nat)
      requires mgr.Valid() && started.agency == agency && started.status == Running && started.retryCount == 0
      requires OneJobMore(original, mgr.dm.entities, Key(agency, started.id), started)
      modifies mgr.dm, mgr.pub
      ensures mgr.Valid()
      ensures OneJobAmong(original, mgr.dm.entities, Key(agency, started.id), Outcomes(started, output, now))
      ensures var j := JobFromEntity(mgr.dm.entities[Key(agency, started.id)]);
        mgr.Told() == old(mgr.Told())
        || (j.status == Completed && mgr.Told() == old(mgr.Told()) + [LifecycleEvent(JobCompleted, j)])
      ensures mgr.Reliable() ==>
        var final := DispatchedJob(started, output, now);
        && OneJobMore(original, mgr.dm.entities, Key(agency, started.id), final)
        && mgr.Told() == old(mgr.Told()) + (if final.status == Completed then [LifecycleEvent(JobCompleted, final)] else [])
    {
      match output
      case RunError(msg) => Abandon(original, started, msg, now);
      case Ran(isError, result, error, minted) =>
        if isError { Abandon(original, started, error, now); } else { Succeed(original, started, result, minted, now); }
    }

    /** A failed run: the first failure of a job leaves it retrying, and announces nothing. */
    method Abandon(ghost original: Store, started: Job, msg: string, now: nat)
      requires mgr.Valid() && started.agency == agency && started.status == Running && started.retryCount == 0
      requires OneJobMore(original, mgr.dm.entities, Key(agency, started.id), started)
      modifies mgr.dm, mgr.pub
      ensures mgr.Valid()
      ensures var failed := started.(status := Retrying, error := msg, retryCount := 1);
        && OneJobAmong(original, mgr.dm.entities, Key(agency, started.id), {started, failed})
        && (mgr.Reliable() ==> OneJobMore(original, mgr.dm.entities, Key(agency, started.id), failed))
      ensures mgr.Told() == old(mgr.Told())
    {
      hide JobFromEntity;
      hide TextProp;
      hide M.HasStatus;
      hide M.NextCount;
      ghost var before, k := mgr.dm.entities, Key(agency, started.id);
      GuardHolds(before, k);
      var r := mgr.FailJob(agency, started.id, msg, now);
      CallMovesJob(original, before, mgr.dm.entities, k, started, WFail(1, msg, now), r);
    }

    /** Back-fills a minted run id where none was inherited, then completes. */
    method Succeed(ghost original: Store, started: Job, result: string, minted: string, now: nat)
      requires mgr.Valid() && started.agency == agency && started.status == Running
      requires OneJobMore(original, mgr.dm.entities, Key(agency, started.id), started)
      modifies mgr.dm, mgr.pub
      ensures mgr.Valid()
      ensures OneJobAmong(original, mgr.dm.entities, Key(agency, started.id),
                          Outcomes(started, Ran(false, result, "", minted), now))
      ensures var j := JobFromEntity(mgr.dm.entities[Key(agency, started.id)]);
        mgr.Told() == old(mgr.Told())
        || (j.status == Completed && mgr.Told() == old(mgr.Told()) + [LifecycleEvent(JobCompleted, j)])
      ensures mgr.Reliable() ==>
        var final := DispatchedJob(started, Ran(false, result, "", minted), now);
        && OneJobMore(original, mgr.dm.entities, Key(agency, started.id), final)
        && mgr.Told() == old(mgr.Told()) + [LifecycleEvent(JobCompleted, final)]
    {
      hide JobFromEntity;
      hide TextProp;
      hide M.HasStatus;
      hide M.NextCount;
      hide DispatchedJob;
      hide Outcomes;
      hide JobAfter;
      SuccessStates(started, result, minted, now);
      ghost var before, k, bound := mgr.dm.entities, Key(agency, started.id), started;
      if started.workflowRunId == "" && minted != "" {
        var b := mgr.SetJobWorkflowRunID(agency, started.id, minted);
        CallMovesJob(original, before, mgr.dm.entities, k, started, WBindRun(minted), b);
        bound := JobFromEntity(mgr.dm.entities[k]);
      }
      before := mgr.dm.entities;
      GuardHolds(before, k);
      var r := mgr.CompleteJob(agency, started.id, result, now);
      M.AnnouncesStoredFields(mgr.dm.entities[k], JobCompleted);
      CallMovesJob(original, before, mgr.dm.entities, k, bound, WComplete(result, now), r);
    }
  }
}
