/** What rolling a workflow run back does to the store, and its algebra. */
module Rollback {
  import opened Common
  import opened Entities
  import opened Jobs

  /** The emptiness test on completed_at: absent, non-string and "" all count as empty. */
  predicate CompletedAtEmpty(props: Props) {
    PCompletedAt !in props || !(props[PCompletedAt].Stamp? || (props[PCompletedAt].Text? && props[PCompletedAt].text != ""))
  }

  function StatusOf(e: Entity): JobStatus { ParseStatus(TextProp(e.props, PStatus)) }

  /** The patch one withdrawal sends: completed_at only where the re-read found it empty. */
  function WithdrawalPatch(e: Entity, next: JobStatus, reason: string, now: nat): Props {
    PatchOf(WRollback(next, reason, if CompletedAtEmpty(e.props) then Some(now) else None))
  }

  function RolledBackEntity(e: Entity, reason: string, now: nat): Entity {
    match RollbackTarget(StatusOf(e))
    case None => e
    case Some(next) => e.(props := e.props + WithdrawalPatch(e, next, reason, now))
  }

  /** The store once the jobs `ids` of one agency have been handled. */
  function Rolled(store: Store, agency: string, ids: seq<string>, reason: string, now: nat): Store {
    map k | k in store ::
      if k.agency == agency && k.id in ids then RolledBackEntity(store[k], reason, now) else store[k]
  }

  /** The store with one job withdrawn. */
  function WithdrawnAt(store: Store, k: Key, reason: string, now: nat): Store
    requires k in store
  {
    store[k := RolledBackEntity(store[k], reason, now)]
  }

  predicate AllStored(store: Store, agency: string, ids: seq<string>) {
    forall id | id in ids :: Key(agency, id) in store
  }

  ghost predicate Distinct(ids: seq<string>) {
    forall i, j | 0 <= i < j < |ids| :: ids[i] != ids[j]
  }

  predicate OfRun(e: Entity, agency: string, run: string) {
    Selects(e, agency, JOB_TYPE, map[PWorkflowRunId := run])
  }

  lemma OfRunMeans(e: Entity, agency: string, run: string)
    ensures OfRun(e, agency, run) <==>
      && e.agency == agency && e.typeId == JOB_TYPE
      && PWorkflowRunId in e.props && e.props[PWorkflowRunId] == Text(run)
  {
    assert PWorkflowRunId in map[PWorkflowRunId := run];
  }

  /** The ids of the run's jobs, each once, in any order. */
  ghost predicate IsRunListing(store: Store, agency: string, run: string, ids: seq<string>) {
    && Distinct(ids)
    && (forall id | id in ids :: Key(agency, id) in store && OfRun(store[Key(agency, id)], agency, run))
    && (forall k | k in store && OfRun(store[k], agency, run) :: k.agency == agency && k.id in ids)
  }

  /** Those of `ids`, in order, whose job rollback turns into `target`; None collects the skipped. */
  function Outcome(store: Store, agency: string, ids: seq<string>, target: Option<JobStatus>): seq<string>
    requires AllStored(store, agency, ids)
  {
    if ids == [] then []
    else
      var init, last := ids[..|ids| - 1], ids[|ids| - 1];
      assert last in ids;
      Outcome(store, agency, init, target)
      + (if RollbackTarget(StatusOf(store[Key(agency, last)])) == target then [last] else [])
  }

  /** What one call announces of a job: its withdrawal, or nothing. */
  function Announcement(e: Entity, run: string, reason: string): seq<Event> {
    if RollbackTarget(StatusOf(e)).Some? then [WithdrawalEvent(JobFromEntity(e), run, reason)] else []
  }

  /** The events of a rollback: one per withdrawn job, in handling order. */
  function Events(store: Store, agency: string, ids: seq<string>, run: string, reason: string): seq<Event>
    requires AllStored(store, agency, ids)
  {
    if ids == [] then []
    else
      var init, last := ids[..|ids| - 1], ids[|ids| - 1];
      assert last in ids;
      Events(store, agency, init, run, reason) + Announcement(store[Key(agency, last)], run, reason)
  }

  /** Handling one more job: the step of the rollback loop. */
  lemma RolledStep(store: Store, agency: string, ids: seq<string>, id: string, reason: string, now: nat)
    requires Key(agency, id) in store && id !in ids
    ensures var k, before, after := Key(agency, id), Rolled(store, agency, ids, reason, now),
                                    Rolled(store, agency, ids + [id], reason, now);
      && k in before && before[k] == store[k]
      && after == WithdrawnAt(before, k, reason, now)
  {
    var k, before, after := Key(agency, id), Rolled(store, agency, ids, reason, now),
                            Rolled(store, agency, ids + [id], reason, now);
    assert forall x: string :: x in ids + [id] <==> x in ids || x == id;
    assert before.Keys == after.Keys == store.Keys;
  }

  lemma OutcomeNext(store: Store, agency: string, ids: seq<string>, id: string, target: Option<JobStatus>)
    requires AllStored(store, agency, ids) && Key(agency, id) in store
    ensures AllStored(store, agency, ids + [id])
    ensures Outcome(store, agency, ids + [id], target)
         == if RollbackTarget(StatusOf(store[Key(agency, id)])) == target then Outcome(store, agency, ids, target) + [id]
            else Outcome(store, agency, ids, target)
  {
    assert (ids + [id])[..|ids|] == ids;
  }

  lemma EventsStep(store: Store, agency: string, ids: seq<string>, id: string, run: string, reason: string)
    requires AllStored(store, agency, ids) && Key(agency, id) in store
    ensures AllStored(store, agency, ids + [id])
    ensures Events(store, agency, ids + [id], run, reason)
         == Events(store, agency, ids, run, reason) + Announcement(store[Key(agency, id)], run, reason)
  {
    assert (ids + [id])[..|ids|] == ids;
  }

  // ---------- one job ----------

  ghost predicate SameProp(e: Entity, f: Entity, p: Prop) {
    (p in e.props <==> p in f.props) && (p in e.props ==> e.props[p] == f.props[p])
  }

  /** The properties a withdrawal may write. */
  const WITHDRAWAL_PROPS := {PStatus, PCompletedAt, PRollbackReason}

  /** Equal but for the status, the completion time and the recorded reason. */
  ghost predicate SameRecord(e: Entity, f: Entity) {
    && e.id == f.id && e.agency == f.agency && e.typeId == f.typeId
    && e.props - WITHDRAWAL_PROPS == f.props - WITHDRAWAL_PROPS
  }

  /**
   * Rollback of one job: in-flight becomes cancelled, completed and failed become
   * rolled_back, everything else is left; outputs, error, retry count and a completion
   * time already set stay.
   */
  lemma RolledBackJob(e: Entity, reason: string, now: nat)
    ensures var f := RolledBackEntity(e, reason, now);
      && StatusOf(f) == (if InFlight(StatusOf(e)) then Cancelled
                         else if StatusOf(e) in {Completed, Failed} then RolledBack else StatusOf(e))
      && SameRecord(e, f)
      && (!CompletedAtEmpty(e.props) ==> SameProp(e, f, PCompletedAt))
      && (StatusOf(f) != StatusOf(e) ==> !CompletedAtEmpty(f.props))
      && RollbackTarget(StatusOf(f)).None?
  {
    StatusRoundTrip(Cancelled);
    StatusRoundTrip(RolledBack);
    var f := RolledBackEntity(e, reason, now);
    if RollbackTarget(StatusOf(e)).Some? {
      var patch := WithdrawalPatch(e, RollbackTarget(StatusOf(e)).value, reason, now);
      assert patch.Keys <= {PStatus, PCompletedAt, PRollbackReason};
      assert f.props[PStatus] == patch[PStatus];
    }
  }

  /** The typed reading of the same, for bags whose completion time is empty or a time. */
  lemma RolledBackJobIsTransition(e: Entity, reason: string, now: nat)
    requires CompletedAtEmpty(e.props) == TimeProp(e.props, PCompletedAt).None?
    ensures JobFromEntity(RolledBackEntity(e, reason, now)) == WithdrawnJob(JobFromEntity(e), reason, now)
  {
    if RollbackTarget(StatusOf(e)).Some? {
      PatchRefinesTransition(e, WRollback(RollbackTarget(StatusOf(e)).value, reason,
                                          if CompletedAtEmpty(e.props) then Some(now) else None));
    }
  }

  function WithdrawnJob(j: Job, reason: string, now: nat): Job {
    match RollbackTarget(j.status)
    case None => j
    case Some(next) => JobAfter(j, WRollback(next, reason, if j.completedAt.None? then Some(now) else None))
  }

  // ---------- the whole run ----------

  /** Rollback touches exactly the run's jobs, whatever order they are listed in. */
  lemma RollbackIsPointwise(store: Store, agency: string, run: string, ids: seq<string>, reason: string, now: nat)
    requires IsRunListing(store, agency, run, ids) && WellKeyed(store)
    ensures Rolled(store, agency, ids, reason, now)
         == map k | k in store :: if OfRun(store[k], agency, run) then RolledBackEntity(store[k], reason, now)
                                  else store[k]
  {}

  /** Rollback keeps which jobs belong to which run, so listings stay listings. */
  lemma ListingKept(store: Store, agency: string, run: string, ids: seq<string>, handled: seq<string>,
                    reason: string, now: nat)
    ensures IsRunListing(store, agency, run, ids)
       <==> IsRunListing(Rolled(store, agency, handled, reason, now), agency, run, ids)
  {
    var after := Rolled(store, agency, handled, reason, now);
    forall k | k in store ensures OfRun(store[k], agency, run) <==> OfRun(after[k], agency, run) {
      RolledBackJob(store[k], reason, now);
      RecordKeepsRun(store[k], after[k], agency, run);
    }
    assert after.Keys == store.Keys;
  }

  /** A list holds a job, as often as it was listed, exactly when its status calls for that outcome. */
  lemma {:induction false} OutcomeCount(store: Store, agency: string, ids: seq<string>,
                                        target: Option<JobStatus>, id: string)
    requires AllStored(store, agency, ids)
    ensures multiset(Outcome(store, agency, ids, target))[id]
         == if id in ids && RollbackTarget(StatusOf(store[Key(agency, id)])) == target then multiset(ids)[id] else 0
  {
    if ids != [] {
      var init, last := ids[..|ids| - 1], ids[|ids| - 1];
      assert ids == init + [last];
      assert last in ids && forall x | x in init :: x in ids;
      OutcomeCount(store, agency, init, target, id);
    }
  }

  /** The three result lists partition the listing: each job is in exactly one, once. */
  lemma OutcomesPartition(store: Store, agency: string, ids: seq<string>)
    requires AllStored(store, agency, ids)
    ensures multiset(Outcome(store, agency, ids, Some(Cancelled)))
          + multiset(Outcome(store, agency, ids, Some(RolledBack)))
          + multiset(Outcome(store, agency, ids, None)) == multiset(ids)
  {
    var c, r := Outcome(store, agency, ids, Some(Cancelled)), Outcome(store, agency, ids, Some(RolledBack));
    var n := Outcome(store, agency, ids, None);
    forall id: string ensures multiset(c)[id] + multiset(r)[id] + multiset(n)[id] == multiset(ids)[id] {
      OutcomeCount(store, agency, ids, Some(Cancelled), id);
      OutcomeCount(store, agency, ids, Some(RolledBack), id);
      OutcomeCount(store, agency, ids, None, id);
    }
  }

  /** A second call changes nothing, announces nothing, and reports every job as skipped. */
  lemma SecondRollbackIsIdle(store: Store, agency: string, run: string, ids: seq<string>, again: seq<string>,
                             reason: string, now: nat, reason': string, now': nat)
    requires IsRunListing(store, agency, run, ids)
    requires IsRunListing(Rolled(store, agency, ids, reason, now), agency, run, again)
    ensures var after := Rolled(store, agency, ids, reason, now);
      && Rolled(after, agency, again, reason', now') == after
      && Events(after, agency, again, run, reason') == []
      && Outcome(after, agency, again, None) == again
      && multiset(again) == multiset(ids)
  {
    hide WithdrawalPatch;
    hide Selects;
    var after := Rolled(store, agency, ids, reason, now);
    ListingKept(store, agency, run, again, ids, reason, now);
    forall id | id in again ensures id in ids && RollbackTarget(StatusOf(after[Key(agency, id)])).None? {
      RolledBackJob(store[Key(agency, id)], reason, now);
    }
    SkippedAll(after, agency, again, run, reason');
    SameMembers(again, ids);
  }

  lemma {:induction false} SkippedAll(store: Store, agency: string, ids: seq<string>, run: string, reason: string)
    requires AllStored(store, agency, ids)
    requires forall id | id in ids :: RollbackTarget(StatusOf(store[Key(agency, id)])).None?
    ensures Events(store, agency, ids, run, reason) == []
    ensures Outcome(store, agency, ids, None) == ids
  {
    if ids != [] {
      var init, last := ids[..|ids| - 1], ids[|ids| - 1];
      assert ids == init + [last];
      assert last in ids && forall x | x in init :: x in ids;
      SkippedAll(store, agency, init, run, reason);
    }
  }

  /** Duplicate-free lists with the same members are permutations of one another. */
  lemma SameMembers(a: seq<string>, b: seq<string>)
    requires Distinct(a) && Distinct(b)
    requires forall x :: x in a <==> x in b
    ensures multiset(a) == multiset(b)
  {
    forall x: string ensures multiset(a)[x] == multiset(b)[x] {
      DistinctCount(a, x);
      DistinctCount(b, x);
    }
  }

  lemma {:induction false} DistinctCount(a: seq<string>, x: string)
    requires Distinct(a)
    ensures multiset(a)[x] == if x in a then 1 else 0
  {
    if a != [] {
      var init, last := a[..|a| - 1], a[|a| - 1];
      assert a == init + [last];
      DistinctCount(init, x);
      assert last !in init;
    }
  }

  /** Rollbacks of two different runs commute: they touch disjoint sets of jobs. */
  lemma RollbacksCommute(store: Store, agency: string, run1: string, run2: string, ids1: seq<string>, ids2: seq<string>,
                         reason1: string, reason2: string, now1: nat, now2: nat)
    requires run1 != run2
    requires IsRunListing(store, agency, run1, ids1) && IsRunListing(store, agency, run2, ids2)
    ensures Rolled(Rolled(store, agency, ids1, reason1, now1), agency, ids2, reason2, now2)
         == Rolled(Rolled(store, agency, ids2, reason2, now2), agency, ids1, reason1, now1)
  {
    forall id | id in ids1 ensures id !in ids2 {
      OfRunMeans(store[Key(agency, id)], agency, run1);
      OfRunMeans(store[Key(agency, id)], agency, run2);
    }
  }

  // ---------- undoing a rollback from its events ----------

  function WithStatus(store: Store, k: Key, s: JobStatus): Store
    requires k in store
  {
    store[k := store[k].(props := store[k].props[PStatus := Text(StatusText(s))])]
  }

  /** Writes each event's previous status back, the last event first. */
  function Undo(store: Store, agency: string, events: seq<Event>): Store {
    if events == [] then store
    else
      var last := events[|events| - 1];
      var k := Key(agency, last.jobId);
      var restored := if last.Withdrawal? && k in store then WithStatus(store, k, last.previous) else store;
      Undo(restored, agency, events[..|events| - 1])
  }

  lemma WithStatusReads(store: Store, k: Key, s: JobStatus)
    requires k in store && !s.Unknown?
    ensures StatusOf(WithStatus(store, k, s)[k]) == s
    ensures SameRecord(WithStatus(store, k, s)[k], store[k])
  {
    StatusRoundTrip(s);
  }

  /** The events of a rollback suffice to restore every job's status, and only statuses change. */
  lemma UndoRestoresStatuses(store: Store, agency: string, ids: seq<string>, run: string, reason: string, now: nat)
    requires WellKeyed(store) && Distinct(ids) && AllStored(store, agency, ids)
    ensures var undone := Undo(Rolled(store, agency, ids, reason, now), agency, Events(store, agency, ids, run, reason));
      && undone.Keys == store.Keys
      && forall k | k in store :: StatusOf(undone[k]) == StatusOf(store[k]) && SameRecord(undone[k], store[k])
  {
    var rolled := Rolled(store, agency, ids, reason, now);
    forall k | k in store ensures SameRecord(rolled[k], store[k]) { RolledBackJob(store[k], reason, now); }
    UndoFrom(store, rolled, agency, ids, run, reason);
  }

  /** What is left to undo once the jobs after `ids` have been restored. */
  ghost predicate Undoable(store: Store, current: Store, agency: string, ids: seq<string>) {
    && current.Keys == store.Keys
    && forall k | k in store ::
      && SameRecord(current[k], store[k])
      && (StatusOf(current[k]) == StatusOf(store[k])
          || (k.agency == agency && k.id in ids && RollbackTarget(StatusOf(store[k])).Some?))
  }

  lemma UndoStep(store: Store, current: Store, agency: string, ids: seq<string>, last: string)
    requires Undoable(store, current, agency, ids + [last]) && Key(agency, last) in store
    ensures var k := Key(agency, last);
      if RollbackTarget(StatusOf(store[k])).Some?
      then Undoable(store, WithStatus(current, k, StatusOf(store[k])), agency, ids)
      else Undoable(store, current, agency, ids)
  {
    var k := Key(agency, last);
    assert forall x: string :: x in ids + [last] <==> x in ids || x == last;
    if RollbackTarget(StatusOf(store[k])).Some? { WithStatusReads(current, k, StatusOf(store[k])); }
  }

  /** The last handled job's event comes last, and undoing starts with it. */
  lemma UndoLast(store: Store, current: Store, agency: string, ids: seq<string>, last: string, run: string, reason: string)
    requires WellKeyed(store) && AllStored(store, agency, ids) && AllStored(store, agency, ids + [last])
    requires Key(agency, last) in store && current.Keys == store.Keys
    ensures var k, events := Key(agency, last), Events(store, agency, ids, run, reason);
      Undo(current, agency, Events(store, agency, ids + [last], run, reason))
      == if RollbackTarget(StatusOf(store[k])).Some? then Undo(WithStatus(current, k, StatusOf(store[k])), agency, events)
         else Undo(current, agency, events)
  {
    var events := Events(store, agency, ids, run, reason);
    assert (ids + [last])[..|ids|] == ids;
    var e := store[Key(agency, last)];
    if RollbackTarget(StatusOf(e)).Some? {
      var all := Events(store, agency, ids + [last], run, reason);
      assert all == events + [WithdrawalEvent(JobFromEntity(e), run, reason)];
      assert all[..|all| - 1] == events;
    } else {
      assert Events(store, agency, ids + [last], run, reason) == events;
    }
  }

  lemma {:induction false} UndoFrom(store: Store, current: Store, agency: string, ids: seq<string>, run: string, reason: string)
    requires WellKeyed(store) && AllStored(store, agency, ids) && Undoable(store, current, agency, ids)
    ensures Undoable(store, Undo(current, agency, Events(store, agency, ids, run, reason)), agency, [])
    decreases |ids|
  {
    if ids != [] {
      var init, last := ids[..|ids| - 1], ids[|ids| - 1];
      assert ids == init + [last];
      assert last in ids && forall x | x in init :: x in ids;
      UndoStep(store, current, agency, init, last);
      UndoLast(store, current, agency, init, last, run, reason);
      var status := StatusOf(store[Key(agency, last)]);
      if RollbackTarget(status).Some? {
        UndoFrom(store, WithStatus(current, Key(agency, last), status), agency, init, run, reason);
      } else {
        UndoFrom(store, current, agency, init, run, reason);
      }
    }
  }

  // ---------- recovery after aborted calls ----------

  /**
   * A call that aborted: it had handled the first `handled` of the jobs it listed, and the
   * update that failed next may have been applied all the same.
   */
  datatype Attempt = Attempt(ids: seq<string>, handled: nat, appliedUnacknowledged: bool, reason: string, now: nat) {
    ghost predicate Valid() { handled < |ids| }

    /** The jobs whose store entry the attempt changed. */
    ghost function Touched(): seq<string>
      requires Valid()
    {
      if appliedUnacknowledged then ids[..handled + 1] else ids[..handled]
    }
  }

  ghost predicate ValidAttempts(store: Store, agency: string, run: string, attempts: seq<Attempt>) {
    forall i | 0 <= i < |attempts| :: attempts[i].Valid() && IsRunListing(store, agency, run, attempts[i].ids)
  }

  ghost function AfterAttempts(store: Store, agency: string, attempts: seq<Attempt>): Store
    requires forall i | 0 <= i < |attempts| :: attempts[i].Valid()
  {
    if attempts == [] then store
    else
      var last := attempts[|attempts| - 1];
      assert last.Valid();
      Rolled(AfterAttempts(store, agency, attempts[..|attempts| - 1]), agency, last.Touched(), last.reason, last.now)
  }

  /** Part way through a recovery: an entry is untouched, or withdrawn as one call would. */
  ghost predicate PartlyRolled(e: Entity, f: Entity) {
    && SameRecord(e, f)
    && (StatusOf(f) == StatusOf(e) || Some(StatusOf(f)) == RollbackTarget(StatusOf(e)))
    && (!CompletedAtEmpty(e.props) ==> SameProp(e, f, PCompletedAt))
  }

  lemma PartlyRolledStep(e: Entity, f: Entity, reason: string, now: nat)
    requires PartlyRolled(e, f)
    ensures PartlyRolled(e, RolledBackEntity(f, reason, now))
  {
    RolledBackJob(f, reason, now);
  }

  lemma {:induction false} AttemptsKeep(store: Store, agency: string, run: string, attempts: seq<Attempt>)
    requires ValidAttempts(store, agency, run, attempts) && WellKeyed(store)
    ensures var m := AfterAttempts(store, agency, attempts);
      && m.Keys == store.Keys
      && forall k | k in store :: PartlyRolled(store[k], m[k]) && (!OfRun(store[k], agency, run) ==> m[k] == store[k])
  {
    if attempts != [] {
      var init, last := attempts[..|attempts| - 1], attempts[|attempts| - 1];
      AttemptsKeep(store, agency, run, init);
      var m := AfterAttempts(store, agency, init);
      forall k | k in store
        ensures PartlyRolled(store[k], Rolled(m, agency, last.Touched(), last.reason, last.now)[k])
      {
        PartlyRolledStep(store[k], m[k], last.reason, last.now);
      }
      assert forall id | id in last.Touched() :: id in last.ids;
      forall k | k in store && k.agency == agency && k.id in last.Touched()
        ensures OfRun(store[k], agency, run)
      {
        assert k == Key(agency, k.id);
      }
    }
  }

  /**
   * Recovery is confluent: after any aborted calls, in any listing orders, one successful
   * call leaves each entity as a single uninterrupted call would, up to the moment and the
   * reason it records; a completion time that was set beforehand is the original one.
   */
  lemma RecoveryIsConfluent(store: Store, agency: string, run: string, attempts: seq<Attempt>, ids: seq<string>,
                            reason: string, now: nat, ids': seq<string>, reason': string, now': nat)
    requires WellKeyed(store) && ValidAttempts(store, agency, run, attempts)
    requires IsRunListing(AfterAttempts(store, agency, attempts), agency, run, ids)
    requires IsRunListing(store, agency, run, ids')
    ensures var recovered := Rolled(AfterAttempts(store, agency, attempts), agency, ids, reason, now);
      var direct := Rolled(store, agency, ids', reason', now');
      && recovered.Keys == direct.Keys
      && forall k | k in store ::
        && SameEnd(store[k], recovered[k], direct[k])
        && (!OfRun(store[k], agency, run) ==> recovered[k] == store[k] == direct[k])
  {
    var m := AfterAttempts(store, agency, attempts);
    AttemptsKeep(store, agency, run, attempts);
    RollbackIsPointwise(store, agency, run, ids', reason', now');
    assert WellKeyed(m);
    RollbackIsPointwise(m, agency, run, ids, reason, now);
    forall k | k in store ensures
      && (OfRun(m[k], agency, run) <==> OfRun(store[k], agency, run))
      && SameEnd(store[k], RolledBackEntity(m[k], reason, now), RolledBackEntity(store[k], reason', now'))
    {
      RecordKeepsRun(store[k], m[k], agency, run);
      EndsAlike(store[k], m[k], reason, now, reason', now');
    }
  }

  /** Two outcomes for one original entity agree, up to the moment and reason recorded. */
  ghost predicate SameEnd(original: Entity, f: Entity, g: Entity) {
    && StatusOf(f) == StatusOf(g)
    && SameRecord(f, g)
    && (!CompletedAtEmpty(original.props) ==> SameProp(f, g, PCompletedAt))
  }

  lemma EndsAlike(e: Entity, f: Entity, reason: string, now: nat, reason': string, now': nat)
    requires PartlyRolled(e, f)
    ensures SameEnd(e, RolledBackEntity(f, reason, now), RolledBackEntity(e, reason', now'))
  {
    RolledBackJob(f, reason, now);
    RolledBackJob(e, reason', now');
  }

  lemma RecordKeepsRun(e: Entity, f: Entity, agency: string, run: string)
    requires SameRecord(e, f)
    ensures OfRun(e, agency, run) <==> OfRun(f, agency, run)
  {
    var p, q := e.props - WITHDRAWAL_PROPS, f.props - WITHDRAWAL_PROPS;
    assert PWorkflowRunId in e.props <==> PWorkflowRunId in p;
    assert PWorkflowRunId in f.props <==> PWorkflowRunId in q;
    OfRunMeans(e, agency, run);
    OfRunMeans(f, agency, run);
  }

  // ---------- the events of a recovery ----------

  function EventsFor(events: seq<Event>, id: string): seq<Event> {
    if events == [] then []
    else
      var last := events[|events| - 1];
      EventsFor(events[..|events| - 1], id) + (if last.jobId == id then [last] else [])
  }

  lemma {:induction false} EventsForConcat(a: seq<Event>, b: seq<Event>, id: string)
    ensures EventsFor(a + b, id) == EventsFor(a, id) + EventsFor(b, id)
  {
    if b == [] {
      assert a + b == a;
    } else {
      var init := b[..|b| - 1];
      assert (a + b)[..|a + b| - 1] == a + init;
      EventsForConcat(a, init, id);
    }
  }

  lemma EventsForAnnouncement(e: Entity, run: string, reason: string, id: string)
    ensures EventsFor(Announcement(e, run, reason), id) == if e.id == id then Announcement(e, run, reason) else []
  {
    if RollbackTarget(StatusOf(e)).Some? {
      var event := WithdrawalEvent(JobFromEntity(e), run, reason);
      assert [event][..0] == [];
    }
  }

  lemma {:induction false} EventsOfOneJob(store: Store, agency: string, ids: seq<string>, run: string, reason: string, id: string)
    requires WellKeyed(store) && Distinct(ids) && AllStored(store, agency, ids)
    ensures EventsFor(Events(store, agency, ids, run, reason), id)
         == if id in ids then Announcement(store[Key(agency, id)], run, reason) else []
  {
    if ids != [] {
      var init, last := ids[..|ids| - 1], ids[|ids| - 1];
      assert ids == init + [last] && last !in init;
      assert last in ids && forall x | x in init :: x in ids;
      EventsOfOneJob(store, agency, init, run, reason, id);
      var e := store[Key(agency, last)];
      EventsForConcat(Events(store, agency, init, run, reason), Announcement(e, run, reason), id);
      EventsForAnnouncement(e, run, reason, id);
    }
  }

  /** Everything announced by a sequence of aborted calls: each announces the jobs it handled. */
  ghost function AttemptsEvents(store: Store, agency: string, run: string, attempts: seq<Attempt>): seq<Event>
    requires WellKeyed(store) && ValidAttempts(store, agency, run, attempts)
  {
    if attempts == [] then []
    else
      var init, last := attempts[..|attempts| - 1], attempts[|attempts| - 1];
      assert last.Valid();
      AttemptsKeep(store, agency, run, init);
      AttemptsEvents(store, agency, run, init)
      + Events(AfterAttempts(store, agency, init), agency, last.ids[..last.handled], run, last.reason)
  }

  /** How an aborted recovery has dealt with one job so far. */
  datatype Trace = Untouched | Told(reason: string) | Silenced

  /** The first attempt that touches a job decides: it announces the job, or withdraws it unacknowledged. */
  ghost function TraceOf(attempts: seq<Attempt>, id: string): Trace
    requires forall i | 0 <= i < |attempts| :: attempts[i].Valid()
  {
    if attempts == [] then Untouched
    else
      var init, last := attempts[..|attempts| - 1], attempts[|attempts| - 1];
      assert last.Valid();
      if TraceOf(init, id) != Untouched then TraceOf(init, id)
      else if id in last.ids[..last.handled] then Told(last.reason)
      else if id in last.Touched() then Silenced
      else Untouched
  }

  /** One attempt more: the store moves on by what it touched, and it announces what it handled. */
  lemma LastAttempt(store: Store, agency: string, run: string, attempts: seq<Attempt>)
    requires WellKeyed(store) && ValidAttempts(store, agency, run, attempts) && attempts != []
    ensures var init, last := attempts[..|attempts| - 1], attempts[|attempts| - 1];
      var m, handled := AfterAttempts(store, agency, init), last.ids[..last.handled];
      && ValidAttempts(store, agency, run, init) && last.Valid()
      && WellKeyed(m) && m.Keys == store.Keys && Distinct(handled) && AllStored(m, agency, handled)
      && (forall id | id in handled :: id in last.Touched())
      && AfterAttempts(store, agency, attempts) == Rolled(m, agency, last.Touched(), last.reason, last.now)
      && AttemptsEvents(store, agency, run, attempts)
         == AttemptsEvents(store, agency, run, init) + Events(m, agency, handled, run, last.reason)
  {
    var init, last := attempts[..|attempts| - 1], attempts[|attempts| - 1];
    assert last.Valid();
    AttemptsKeep(store, agency, run, init);
    assert forall id | id in last.ids[..last.handled] :: id in last.ids;
  }

  /**
   * Mid-recovery, a job has been announced, once, exactly when the first attempt to touch it
   * acknowledged that; and its status has changed exactly when it was touched and could change.
   */
  lemma {:induction false} AttemptsAnnounce(store: Store, agency: string, run: string, attempts: seq<Attempt>, id: string)
    requires WellKeyed(store) && ValidAttempts(store, agency, run, attempts)
    requires Key(agency, id) in store
    ensures Key(agency, id) in AfterAttempts(store, agency, attempts)
    ensures var e, f := store[Key(agency, id)], AfterAttempts(store, agency, attempts)[Key(agency, id)];
      && EventsFor(AttemptsEvents(store, agency, run, attempts), id)
         == (if TraceOf(attempts, id).Told? then Announcement(e, run, TraceOf(attempts, id).reason) else [])
      && (StatusOf(f) == StatusOf(e) <==> TraceOf(attempts, id) == Untouched || RollbackTarget(StatusOf(e)).None?)
  {
    AttemptsKeep(store, agency, run, attempts);
    if attempts != [] {
      var init, last := attempts[..|attempts| - 1], attempts[|attempts| - 1];
      hide PartlyRolled;
      hide AfterAttempts;
      hide AttemptsEvents;
      hide EventsFor;
      hide Events;
      hide Announcement;
      hide Rolled;
      hide OfRun;
      hide StatusOf;
      LastAttempt(store, agency, run, attempts);
      AttemptsKeep(store, agency, run, init);
      AttemptsAnnounce(store, agency, run, init, id);
      var m, handled := AfterAttempts(store, agency, init), last.ids[..last.handled];
      EventsForConcat(AttemptsEvents(store, agency, run, init), Events(m, agency, handled, run, last.reason), id);
      OneAttemptAnnounces(store[Key(agency, id)], m, agency, run, last.Touched(), handled, last.reason, last.now, id);
    }
  }

  /** What one attempt adds to a job's events and status, given how far the job had come. */
  lemma OneAttemptAnnounces(e: Entity, m: Store, agency: string, run: string, touched: seq<string>, handled: seq<string>,
                            reason: string, now: nat, id: string)
    requires WellKeyed(m) && Distinct(handled) && AllStored(m, agency, handled) && Key(agency, id) in m
    requires PartlyRolled(e, m[Key(agency, id)])
    ensures var k := Key(agency, id);
      var f, g := m[k], Rolled(m, agency, touched, reason, now)[k];
      && EventsFor(Events(m, agency, handled, run, reason), id)
         == (if id in handled && StatusOf(f) == StatusOf(e) then Announcement(e, run, reason) else [])
      && (StatusOf(g) == StatusOf(e) <==>
            StatusOf(f) == StatusOf(e) && (id !in touched || RollbackTarget(StatusOf(e)).None?))
  {
    EventsOfOneJob(m, agency, handled, run, reason, id);
    AnnouncedOnce(e, m[Key(agency, id)], run, reason, now);
  }

  /** Withdrawing an entry that is untouched announces the original; one already withdrawn is silent. */
  lemma AnnouncedOnce(e: Entity, f: Entity, run: string, reason: string, now: nat)
    requires PartlyRolled(e, f)
    ensures if StatusOf(f) == StatusOf(e) then Announcement(f, run, reason) == Announcement(e, run, reason)
            else Announcement(f, run, reason) == [] && RollbackTarget(StatusOf(e)).Some?
    ensures StatusOf(RolledBackEntity(f, reason, now)) == StatusOf(e) <==> RollbackTarget(StatusOf(e)).None?
  {
    var p, q := e.props - WITHDRAWAL_PROPS, f.props - WITHDRAWAL_PROPS;
    assert PFunctionName in e.props <==> PFunctionName in p;
    assert PFunctionName in f.props <==> PFunctionName in q;
    RolledBackJob(f, reason, now);
  }

  /** No attempt before the i-th touched the job. */
  ghost predicate UntouchedBefore(attempts: seq<Attempt>, id: string, i: nat)
    requires i <= |attempts| && forall j | 0 <= j < |attempts| :: attempts[j].Valid()
  {
    forall j | 0 <= j < i :: attempts[j].Valid() && id !in attempts[j].Touched()
  }

  /** The job is silenced: some attempt withdrew it unacknowledged, and none before had touched it. */
  ghost predicate SilencedBy(attempts: seq<Attempt>, id: string, i: nat)
    requires i < |attempts| && forall j | 0 <= j < |attempts| :: attempts[j].Valid()
  {
    && UntouchedBefore(attempts, id, i)
    && attempts[i].appliedUnacknowledged && attempts[i].Valid() && attempts[i].ids[attempts[i].handled] == id
  }

  /** Neither depends on the last attempt, unless it is about that one. */
  lemma BeforeTheLast(attempts: seq<Attempt>, id: string)
    requires attempts != [] && forall i | 0 <= i < |attempts| :: attempts[i].Valid()
    ensures var n := |attempts| - 1;
      && (UntouchedBefore(attempts[..n], id, n) <==> UntouchedBefore(attempts, id, n))
      && forall i | 0 <= i < n :: SilencedBy(attempts[..n], id, i) <==> SilencedBy(attempts, id, i)
  {
    hide Attempt.Touched;
    var n := |attempts| - 1;
    assert forall j | 0 <= j < n :: attempts[..n][j] == attempts[j];
  }

  lemma {:induction false} TraceMeans(attempts: seq<Attempt>, id: string)
    requires forall i | 0 <= i < |attempts| :: attempts[i].Valid() && Distinct(attempts[i].ids)
    ensures TraceOf(attempts, id) == Untouched <==> UntouchedBefore(attempts, id, |attempts|)
    ensures TraceOf(attempts, id) == Silenced <==> exists i | 0 <= i < |attempts| :: SilencedBy(attempts, id, i)
  {
    if attempts != [] {
      hide Attempt.Touched;
      var n := |attempts| - 1;
      var last := attempts[n];
      assert last.Valid();
      TraceMeans(attempts[..n], id);
      BeforeTheLast(attempts, id);
      LastTouch(last, id);
      assert UntouchedBefore(attempts, id, |attempts|) <==> UntouchedBefore(attempts, id, n) && id !in last.Touched();
      assert SilencedBy(attempts, id, n) <==> UntouchedBefore(attempts, id, n) && last.appliedUnacknowledged && last.ids[last.handled] == id;
      hide UntouchedBefore;
      hide SilencedBy;
      if SilencedBy(attempts, id, n) { assert TraceOf(attempts, id) == Silenced; }
    }
  }

  /** An attempt touches what it handled, and the next job if that update was applied unacknowledged. */
  lemma LastTouch(a: Attempt, id: string)
    requires a.Valid() && Distinct(a.ids)
    ensures id in a.Touched() && id !in a.ids[..a.handled] <==> a.appliedUnacknowledged && a.ids[a.handled] == id
    ensures id in a.ids[..a.handled] ==> id in a.Touched()
  {
    assert a.ids[..a.handled + 1] == a.ids[..a.handled] + [a.ids[a.handled]];
  }

  /**
   * Calls one after the other with an accepting publisher: the aborted ones and the final one
   * announce a withdrawn job as one uninterrupted call does, once and with its original status,
   * up to the reason given, if and only if no attempt withdrew it first without an
   * acknowledgement; otherwise it is never announced.
   */
  lemma RecoveryAnnouncesOnce(store: Store, agency: string, run: string, attempts: seq<Attempt>, ids: seq<string>,
                              reason: string, ids': seq<string>, reason': string, id: string)
    requires WellKeyed(store) && ValidAttempts(store, agency, run, attempts)
    requires IsRunListing(AfterAttempts(store, agency, attempts), agency, run, ids)
    requires IsRunListing(store, agency, run, ids') && id in ids'
    ensures WellKeyed(AfterAttempts(store, agency, attempts))
    ensures var silenced := exists i | 0 <= i < |attempts| :: SilencedBy(attempts, id, i);
      var direct := EventsFor(Events(store, agency, ids', run, reason'), id);
      var told := if TraceOf(attempts, id).Told? then TraceOf(attempts, id).reason else reason;
      var all := EventsFor(AttemptsEvents(store, agency, run, attempts)
                           + Events(AfterAttempts(store, agency, attempts), agency, ids, run, reason), id);
      && direct == Announcement(store[Key(agency, id)], run, reason')
      && all == (if silenced then [] else Announcement(store[Key(agency, id)], run, told))
  {
    var m, k := AfterAttempts(store, agency, attempts), Key(agency, id);
    AttemptsKeep(store, agency, run, attempts);
    TraceMeans(attempts, id);
    AttemptsAnnounce(store, agency, run, attempts, id);
    RecordKeepsRun(store[k], m[k], agency, run);
    EventsForConcat(AttemptsEvents(store, agency, run, attempts), Events(m, agency, ids, run, reason), id);
    EventsOfOneJob(m, agency, ids, run, reason, id);
    EventsOfOneJob(store, agency, ids', run, reason', id);
    AnnouncedOnce(store[k], m[k], run, reason, 0);
  }

  // ---------- a rollback in plain terms ----------

  predicate RunJob(e: Entity, agency: string, run: string) {
    && e.agency == agency && e.typeId == "Job"
    && PWorkflowRunId in e.props && e.props[PWorkflowRunId] == Text(run)
  }

  /** The stored status is one of these texts. */
  predicate Says(e: Entity, texts: set<string>) {
    PStatus in e.props && e.props[PStatus].Text? && e.props[PStatus].text in texts
  }

  /** f is e withdrawn: status, reason and completion time as they are to be recorded, and nothing else. */
  ghost predicate StoredWithdrawal(e: Entity, f: Entity, status: string, reason: string, now: nat) {
    && f.id == e.id && f.agency == e.agency && f.typeId == e.typeId
    && PStatus in f.props && f.props[PStatus] == Text(status)
    && (if reason != "" then PRollbackReason in f.props && f.props[PRollbackReason] == Text(reason)
        else SameProp(e, f, PRollbackReason))
    && (if PCompletedAt in e.props
           && (e.props[PCompletedAt].Stamp? || (e.props[PCompletedAt].Text? && e.props[PCompletedAt].text != "")) then
          SameProp(e, f, PCompletedAt)
        else PCompletedAt in f.props && f.props[PCompletedAt] == Stamp(now))
    && forall p | p !in {PStatus, PRollbackReason, PCompletedAt} :: SameProp(e, f, p)
  }

  lemma WithdrawalIsStored(e: Entity, next: JobStatus, reason: string, now: nat)
    ensures StoredWithdrawal(e, e.(props := e.props + WithdrawalPatch(e, next, reason, now)), StatusText(next), reason, now)
  {}

  /** Rolling one entity back, by the text of its status. */
  lemma RolledBackPlainly(e: Entity, reason: string, now: nat)
    ensures var f := RolledBackEntity(e, reason, now);
      if Says(e, {"pending", "running", "retrying"}) then StoredWithdrawal(e, f, "cancelled", reason, now)
      else if Says(e, {"completed", "failed"}) then StoredWithdrawal(e, f, "rolled_back", reason, now)
      else f == e
    ensures RollbackTarget(StatusOf(e)) == (if Says(e, {"pending", "running", "retrying"}) then Some(Cancelled)
                                            else if Says(e, {"completed", "failed"}) then Some(RolledBack) else None)
  {
    StatusRoundTrip(Cancelled);
    WithdrawalIsStored(e, Cancelled, reason, now);
    WithdrawalIsStored(e, RolledBack, reason, now);
    hide StoredWithdrawal;
    hide WithdrawalPatch;
  }

  /** One entity of a store, before and after a rollback with these result lists. */
  ghost predicate EntityRolledBack(e: Entity, f: Entity, agency: string, run: string, reason: string, now: nat,
                                   cancelled: seq<string>, rolledBack: seq<string>, skipped: seq<string>, complete: bool)
  {
    if !RunJob(e, agency, run) then f == e
    else if Says(e, {"pending", "running", "retrying"}) then
      && (complete ==> e.id in cancelled)
      && (StoredWithdrawal(e, f, "cancelled", reason, now) || (e.id !in cancelled && f == e))
    else if Says(e, {"completed", "failed"}) then
      && (complete ==> e.id in rolledBack)
      && (StoredWithdrawal(e, f, "rolled_back", reason, now) || (e.id !in rolledBack && f == e))
    else f == e && (complete ==> e.id in skipped)
  }

  /** The lists hold jobs of the run, each once, by the text of its status. */
  ghost predicate ListsFit(before: Store, agency: string, run: string, cancelled: seq<string>, rolledBack: seq<string>,
                           skipped: seq<string>)
  {
    && (forall id | id in cancelled || id in rolledBack || id in skipped ::
          Key(agency, id) in before && RunJob(before[Key(agency, id)], agency, run))
    && (forall id | id in cancelled :: Says(before[Key(agency, id)], {"pending", "running", "retrying"}))
    && (forall id | id in rolledBack :: Says(before[Key(agency, id)], {"completed", "failed"}))
    && (forall id | id in skipped ::
          && !Says(before[Key(agency, id)], {"pending", "running", "retrying"})
          && !Says(before[Key(agency, id)], {"completed", "failed"}))
    && forall id: string :: multiset(cancelled)[id] <= 1 && multiset(rolledBack)[id] <= 1 && multiset(skipped)[id] <= 1
  }

  /** The events about one job. */
  ghost predicate JobEventsFit(before: Store, agency: string, id: string, run: string, reason: string, events: seq<Event>,
                               cancelled: seq<string>, rolledBack: seq<string>)
  {
    EventsFor(events, id) ==
      if Key(agency, id) !in before then []
      else
        var props := before[Key(agency, id)].props;
        if id in cancelled then
          [Withdrawal(topic := JobCancelled, jobId := id, functionName := TextProp(props, PFunctionName),
                      workflowRunId := run, previous := ParseStatus(TextProp(props, PStatus)), reason := reason)]
        else if id in rolledBack then
          [Withdrawal(topic := JobRolledBack, jobId := id, functionName := TextProp(props, PFunctionName),
                      workflowRunId := run, previous := ParseStatus(TextProp(props, PStatus)), reason := reason)]
        else []
  }

  /** The events: one for each cancelled and each rolled-back job, with the fields it had, and no other. */
  ghost predicate EventsFit(before: Store, agency: string, run: string, reason: string, events: seq<Event>,
                            cancelled: seq<string>, rolledBack: seq<string>)
  {
    forall id: string :: JobEventsFit(before, agency, id, run, reason, events, cancelled, rolledBack)
  }

  lemma RunJobIff(e: Entity, agency: string, run: string)
    ensures RunJob(e, agency, run) <==> OfRun(e, agency, run)
  {
    OfRunMeans(e, agency, run);
  }

  lemma SaysApart(e: Entity)
    ensures !(Says(e, {"pending", "running", "retrying"}) && Says(e, {"completed", "failed"}))
  {
    assert "pending"[0] == 'p' && "running"[0] == 'r' && "retrying"[0] == 'r';
    assert "completed"[0] == 'c' && "failed"[0] == 'f';
  }

  /** Which of the three lists a handled job is in, once, by the text of its status. */
  lemma OutcomeByText(store: Store, agency: string, run: string, ids: seq<string>, handled: seq<string>, id: string)
    requires IsRunListing(store, agency, run, ids) && Distinct(handled)
    requires AllStored(store, agency, handled) && forall x | x in handled :: x in ids
    ensures var c, r, s := Outcome(store, agency, handled, Some(Cancelled)),
                           Outcome(store, agency, handled, Some(RolledBack)), Outcome(store, agency, handled, None);
      && (id in c || id in r || id in s ==> id in handled)
      && (id in handled ==>
            var e := store[Key(agency, id)];
            && RunJob(e, agency, run)
            && (id in c <==> Says(e, {"pending", "running", "retrying"}))
            && (id in r <==> Says(e, {"completed", "failed"}))
            && (id in s <==> !Says(e, {"pending", "running", "retrying"}) && !Says(e, {"completed", "failed"})))
      && multiset(c)[id] <= 1 && multiset(r)[id] <= 1 && multiset(s)[id] <= 1
  {
    hide Outcome;
    hide RollbackTarget;
    hide Says;
    hide RunJob;
    hide RolledBackEntity;
    hide StoredWithdrawal;
    hide StatusOf;
    DistinctCount(handled, id);
    OutcomeCount(store, agency, handled, Some(Cancelled), id);
    OutcomeCount(store, agency, handled, Some(RolledBack), id);
    OutcomeCount(store, agency, handled, None, id);
    if id in handled {
      RunJobIff(store[Key(agency, id)], agency, run);
      RolledBackPlainly(store[Key(agency, id)], "", 0);
      SaysApart(store[Key(agency, id)]);
    }
  }

  /** The lists of the handled jobs fit. */
  lemma HandledListsFit(store: Store, agency: string, run: string, ids: seq<string>, handled: seq<string>)
    requires IsRunListing(store, agency, run, ids) && Distinct(handled) && forall id | id in handled :: id in ids
    ensures AllStored(store, agency, handled)
    ensures ListsFit(store, agency, run, Outcome(store, agency, handled, Some(Cancelled)),
                     Outcome(store, agency, handled, Some(RolledBack)), Outcome(store, agency, handled, None))
    ensures forall id | id !in handled ::
      && id !in Outcome(store, agency, handled, Some(Cancelled))
      && id !in Outcome(store, agency, handled, Some(RolledBack))
      && id !in Outcome(store, agency, handled, None)
    ensures forall id | id in handled ::
      var e := store[Key(agency, id)];
      && (Says(e, {"pending", "running", "retrying"}) ==> id in Outcome(store, agency, handled, Some(Cancelled)))
      && (Says(e, {"completed", "failed"}) ==> id in Outcome(store, agency, handled, Some(RolledBack)))
      && (!Says(e, {"pending", "running", "retrying"}) && !Says(e, {"completed", "failed"}) ==> id in Outcome(store, agency, handled, None))
  {
    hide Outcome;
    hide Says;
    hide RunJob;
    hide Distinct;
    hide OfRun;
    assert AllStored(store, agency, handled);
    forall id: string
      ensures var c, r, s := Outcome(store, agency, handled, Some(Cancelled)),
                             Outcome(store, agency, handled, Some(RolledBack)), Outcome(store, agency, handled, None);
        && (id in c || id in r || id in s ==> id in handled)
        && (id in handled ==>
              var e := store[Key(agency, id)];
              && RunJob(e, agency, run)
              && (id in c <==> Says(e, {"pending", "running", "retrying"}))
              && (id in r <==> Says(e, {"completed", "failed"}))
              && (id in s <==> !Says(e, {"pending", "running", "retrying"}) && !Says(e, {"completed", "failed"})))
        && multiset(c)[id] <= 1 && multiset(r)[id] <= 1 && multiset(s)[id] <= 1
    {
      OutcomeByText(store, agency, run, ids, handled, id);
    }
  }

  /** Every entity fits, when exactly the listed jobs in `touched` were written and `handled` reported. */
  lemma RolledPlainly(store: Store, agency: string, run: string, ids: seq<string>, handled: seq<string>,
                      touched: seq<string>, reason: string, now: nat, k: Key)
    requires WellKeyed(store) && IsRunListing(store, agency, run, ids) && k in store
    requires Distinct(handled) && (forall id | id in handled :: id in touched) && (forall id | id in touched :: id in ids)
    ensures AllStored(store, agency, handled)
    ensures EntityRolledBack(store[k], Rolled(store, agency, touched, reason, now)[k], agency, run, reason, now,
                             Outcome(store, agency, handled, Some(Cancelled)),
                             Outcome(store, agency, handled, Some(RolledBack)), Outcome(store, agency, handled, None),
                             forall id | id in ids :: id in handled)
  {
    hide ListsFit;
    hide Outcome;
    hide StoredWithdrawal;
    hide RolledBackEntity;
    hide RollbackTarget;
    hide StatusOf;
    hide Says;
    hide RunJob;
    hide OfRun;
    HandledListsFit(store, agency, run, ids, handled);
    RolledBackPlainly(store[k], reason, now);
    RunJobIff(store[k], agency, run);
    assert k == Key(k.agency, k.id);
  }

  /** And so do the events. */
  lemma HandledEventsFit(store: Store, agency: string, run: string, ids: seq<string>, handled: seq<string>, reason: string)
    requires WellKeyed(store) && IsRunListing(store, agency, run, ids)
    requires Distinct(handled) && forall id | id in handled :: id in ids
    ensures AllStored(store, agency, handled)
    ensures EventsFit(store, agency, run, reason, Events(store, agency, handled, run, reason),
                      Outcome(store, agency, handled, Some(Cancelled)), Outcome(store, agency, handled, Some(RolledBack)))
  {
    hide Outcome;
    hide Says;
    hide Events;
    hide Announcement;
    hide JobEventsFit;
    forall id: string
      ensures JobEventsFit(store, agency, id, run, reason, Events(store, agency, handled, run, reason),
                           Outcome(store, agency, handled, Some(Cancelled)), Outcome(store, agency, handled, Some(RolledBack)))
    {
      OneJobEventsFit(store, agency, run, ids, handled, reason, id);
    }
  }

  lemma OneJobEventsFit(store: Store, agency: string, run: string, ids: seq<string>, handled: seq<string>, reason: string,
                        id: string)
    requires WellKeyed(store) && IsRunListing(store, agency, run, ids) && Distinct(handled)
    requires AllStored(store, agency, handled) && forall x | x in handled :: x in ids
    ensures JobEventsFit(store, agency, id, run, reason, Events(store, agency, handled, run, reason),
                         Outcome(store, agency, handled, Some(Cancelled)), Outcome(store, agency, handled, Some(RolledBack)))
  {
    hide Outcome;
    hide Says;
    hide RunJob;
    hide Events;
    hide EventsFor;
    hide Announcement;
    OutcomeByText(store, agency, run, ids, handled, id);
    EventsOfOneJob(store, agency, handled, run, reason, id);
    if id in handled {
      AnnouncementFields(store[Key(agency, id)], run, reason);
      SaysApart(store[Key(agency, id)]);
    }
  }

  /** A withdrawn entity's one event, field by field, by the text of its status. */
  ghost predicate AnnouncedAs(e: Entity, run: string, reason: string) {
    Announcement(e, run, reason) ==
      if Says(e, {"pending", "running", "retrying"}) then
        [Withdrawal(topic := JobCancelled, jobId := e.id, functionName := TextProp(e.props, PFunctionName),
                    workflowRunId := run, previous := ParseStatus(TextProp(e.props, PStatus)), reason := reason)]
      else if Says(e, {"completed", "failed"}) then
        [Withdrawal(topic := JobRolledBack, jobId := e.id, functionName := TextProp(e.props, PFunctionName),
                    workflowRunId := run, previous := ParseStatus(TextProp(e.props, PStatus)), reason := reason)]
      else []
  }

  lemma AnnouncementFields(e: Entity, run: string, reason: string)
    ensures AnnouncedAs(e, run, reason)
  {
    RolledBackPlainly(e, "", 0);
  }
}
