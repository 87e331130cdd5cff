/**
 * Deliveries of events to the receiver. The duplicate check, the record's write and the
 * dispatch are separate steps, and deliveries of the same event may overlap.
 */
module Delivery {
  import opened Common

  /**
   * Where one delivery of event `id` stands. A refused delivery may have left a record
   * behind, where the write took effect but reported failure.
   */
  datatype Phase =
    | Arrived(id: string)
    | Writing(id: string)
    | Spawning(id: string)
    | Acknowledged(id: string)
    | Refused(id: string, recorded: bool)

  /** Ids on record, ids handed to a dispatcher, deliveries under way or ended. */
  datatype State = State(records: seq<string>, dispatched: seq<string>, phases: seq<Phase>)

  datatype Action = Arrive(id: string) | Step(n: nat, fault: Fault)

  const Init := State([], [], [])

  function Next(s: State, a: Action): State {
    match a
    case Arrive(id) => s.(phases := s.phases + [Arrived(id)])
    case Step(n, fault) =>
      if n >= |s.phases| then s
      else match s.phases[n]
        case Arrived(id) =>
          var duplicate := id != "" && fault == NoFault && id in s.records;
          s.(phases := s.phases[n := if duplicate then Acknowledged(id) else Writing(id)])
        case Writing(id) =>
          State(if fault == Lost then s.records else s.records + [id], s.dispatched,
                s.phases[n := if fault == NoFault then Spawning(id) else Refused(id, fault != Lost)])
        case Spawning(id) => State(s.records, s.dispatched + [id], s.phases[n := Acknowledged(id)])
        case _ => s
  }

  function After(s: State, actions: seq<Action>): State {
    if actions == [] then s else Next(After(s, actions[..|actions| - 1]), actions[|actions| - 1])
  }

  function Count(ids: seq<string>, id: string): nat { multiset(ids)[id] }

  /** Deliveries of the event that have a record and have not yet spawned. */
  function Pending(phases: seq<Phase>, id: string): nat { multiset(phases)[Spawning(id)] }

  /** Refused deliveries of the event that left a record all the same. */
  function Silent(phases: seq<Phase>, id: string): nat { multiset(phases)[Refused(id, true)] }

  ghost predicate Inv(s: State) {
    && (forall id: string :: Balanced(s, id))
    && (forall i | 0 <= i < |s.phases| && s.phases[i].Acknowledged? :: s.phases[i].id in s.records)
  }

  lemma CountMoveAt(phases: seq<Phase>, n: nat, p: Phase, q: Phase)
    requires n < |phases|
    ensures multiset(phases[n := p])[q] + (if phases[n] == q then 1 else 0)
         == multiset(phases)[q] + (if p == q then 1 else 0)
  {}

  lemma CountMore(ids: seq<string>, x: string, id: string)
    ensures Count(ids + [x], id) == Count(ids, id) + (if x == id then 1 else 0)
  {}

  /** The books of one event balance: each record was dispatched, is about to be, or was refused. */
  predicate Balanced(s: State, id: string) {
    Count(s.records, id) == Count(s.dispatched, id) + Pending(s.phases, id) + Silent(s.phases, id)
  }

  /** A delivery taking a step moves its event's counts by what it was and what it becomes. */
  lemma CountsMove(s: State, n: nat, p: Phase, id: string)
    requires n < |s.phases|
    ensures Pending(s.phases[n := p], id) + (if s.phases[n] == Spawning(id) then 1 else 0)
         == Pending(s.phases, id) + (if p == Spawning(id) then 1 else 0)
    ensures Silent(s.phases[n := p], id) + (if s.phases[n] == Refused(id, true) then 1 else 0)
         == Silent(s.phases, id) + (if p == Refused(id, true) then 1 else 0)
  {
    CountMoveAt(s.phases, n, p, Spawning(id));
    CountMoveAt(s.phases, n, p, Refused(id, true));
  }

  lemma BalanceNext(s: State, a: Action, id: string)
    requires Balanced(s, id)
    ensures Balanced(Next(s, a), id)
  {
    if a.Step? && a.n < |s.phases| {
      CountsMove(s, a.n, Next(s, a).phases[a.n], id);
      CountMore(s.records, s.phases[a.n].id, id);
      CountMore(s.dispatched, s.phases[a.n].id, id);
      hide Count;
      hide Pending;
      hide Silent;
    } else if a.Arrive? {
      assert multiset(s.phases + [Arrived(a.id)]) == multiset(s.phases) + multiset{Arrived(a.id)};
    }
  }

  lemma InvNext(s: State, a: Action)
    requires Inv(s)
    ensures Inv(Next(s, a))
  {
    var s' := Next(s, a);
    forall id: string ensures Balanced(s', id) {
      assert Balanced(s, id);
      BalanceNext(s, a, id);
    }
    forall i | 0 <= i < |s'.phases| && s'.phases[i].Acknowledged? ensures s'.phases[i].id in s'.records {
      if a.Step? && a.n == i && s.phases[i].Spawning? {
        assert Balanced(s, s.phases[i].id) && Pending(s.phases, s.phases[i].id) > 0;
        assert Count(s.records, s.phases[i].id) > 0;
      }
    }
  }

  /**
   * In every interleaving and under any storage faults: an acknowledged event is on record,
   * and the records of an event number its dispatches, those about to be made, and the
   * writes that were refused although they took effect.
   */
  lemma {:induction false} Conservation(actions: seq<Action>)
    ensures Inv(After(Init, actions))
  {
    if actions != [] {
      Conservation(actions[..|actions| - 1]);
      InvNext(After(Init, actions[..|actions| - 1]), actions[|actions| - 1]);
    }
  }

  // ---------- when an event is dispatched exactly once ----------

  function InCheck(phases: seq<Phase>, id: string): nat { multiset(phases)[Writing(id)] }

  /** A delivery of the event checks for duplicates undisturbed: no fault, no other past its check. */
  predicate ChecksApart(s: State, a: Action, id: string) {
    a.Step? && a.n < |s.phases| && s.phases[a.n] == Arrived(id) ==> a.fault == NoFault && InCheck(s.phases, id) == 0
  }

  ghost predicate AllCheckApart(actions: seq<Action>, id: string) {
    forall i | 0 <= i < |actions| :: ChecksApart(After(Init, actions[..i]), actions[i], id)
  }

  lemma OneRecordNext(s: State, a: Action, id: string)
    requires id != "" && ChecksApart(s, a, id)
    requires Count(s.records, id) + InCheck(s.phases, id) <= 1
    ensures Count(Next(s, a).records, id) + InCheck(Next(s, a).phases, id) <= 1
  {}

  lemma {:induction false} OneRecord(actions: seq<Action>, id: string)
    requires id != "" && AllCheckApart(actions, id)
    ensures Count(After(Init, actions).records, id) + InCheck(After(Init, actions).phases, id) <= 1
  {
    if actions != [] {
      var head := actions[..|actions| - 1];
      forall i | 0 <= i < |head| ensures ChecksApart(After(Init, head[..i]), head[i], id) {
        assert head[..i] == actions[..i] && ChecksApart(After(Init, actions[..i]), actions[i], id);
      }
      OneRecord(head, id);
      assert ChecksApart(After(Init, head), actions[|actions| - 1], id);
      OneRecordNext(After(Init, head), actions[|actions| - 1], id);
    }
  }

  /** Acknowledged, and no delivery of the event is between its write and its dispatch. */
  predicate Settled(s: State, id: string) {
    (exists i | 0 <= i < |s.phases| :: s.phases[i] == Acknowledged(id)) && Pending(s.phases, id) == 0
  }

  /**
   * Over every run, an acknowledged event is dispatched exactly once if and only if it has
   * exactly one record besides those that refused writes left. Where its checks do not
   * overlap, repeated and reordered at will, a non-empty id is never dispatched twice, and an
   * acknowledged one exactly once if and only if no refused write left a record.
   */
  lemma ExactlyOnceIff(actions: seq<Action>, id: string)
    ensures var s := After(Init, actions);
      && (Settled(s, id) ==> (Count(s.dispatched, id) == 1 <==> Count(s.records, id) == 1 + Silent(s.phases, id)))
      && (id != "" && AllCheckApart(actions, id) ==>
            && Count(s.dispatched, id) <= 1
            && (Settled(s, id) ==> (Count(s.dispatched, id) == 1 <==> Silent(s.phases, id) == 0)))
  {
    var s := After(Init, actions);
    Conservation(actions);
    if id != "" && AllCheckApart(actions, id) { OneRecord(actions, id); }
    assert Balanced(s, id);
    if Settled(s, id) {
      var i :| 0 <= i < |s.phases| && s.phases[i] == Acknowledged(id);
      assert Count(s.records, id) > 0;
    }
  }

  // ---------- what can still happen to an event ----------

  /** No listing of the event's records fails. */
  predicate Answers(s: State, a: Action, id: string) {
    a.Step? && a.n < |s.phases| && s.phases[a.n] == Arrived(id) ==> a.fault == NoFault
  }

  ghost predicate AllAnswer(s: State, actions: seq<Action>, id: string) {
    forall i | 0 <= i < |actions| :: Answers(After(s, actions[..i]), actions[i], id)
  }

  lemma AllAnswerHead(s: State, actions: seq<Action>, id: string)
    requires actions != [] && AllAnswer(s, actions, id)
    ensures AllAnswer(s, actions[..|actions| - 1], id)
    ensures Answers(After(s, actions[..|actions| - 1]), actions[|actions| - 1], id)
  {
    var head := actions[..|actions| - 1];
    forall i | 0 <= i < |head| ensures Answers(After(s, head[..i]), head[i], id) {
      assert head[..i] == actions[..i] && Answers(After(s, actions[..i]), actions[i], id);
    }
  }

  lemma OneMore(s: State, actions: seq<Action>, a: Action, id: string)
    ensures After(s, actions + [a]) == Next(After(s, actions), a)
    ensures AllAnswer(s, actions, id) && Answers(After(s, actions), a, id) ==> AllAnswer(s, actions + [a], id)
  {
    var all := actions + [a];
    assert all[..|actions|] == actions;
    if AllAnswer(s, actions, id) && Answers(After(s, actions), a, id) {
      forall i | 0 <= i < |all| ensures Answers(After(s, all[..i]), all[i], id) {
        if i < |actions| { assert all[..i] == actions[..i] && Answers(After(s, actions[..i]), actions[i], id); }
      }
    }
  }

  /** A delivery of the event past its duplicate check and not yet at its end. */
  predicate Committed(p: Phase, id: string) { p == Writing(id) || p == Spawning(id) }

  ghost predicate NoneCommitted(s: State, id: string) {
    forall i | 0 <= i < |s.phases| :: !Committed(s.phases[i], id)
  }

  lemma {:induction false} UncommittedStayIdle(s: State, actions: seq<Action>, id: string)
    requires id != "" && id in s.records && NoneCommitted(s, id) && AllAnswer(s, actions, id)
    ensures var s' := After(s, actions);
      id in s'.records && NoneCommitted(s', id) && Count(s'.dispatched, id) == Count(s.dispatched, id)
  {
    if actions != [] {
      var head := actions[..|actions| - 1];
      AllAnswerHead(s, actions, id);
      UncommittedStayIdle(s, head, id);
      RecordedStep(After(s, head), actions[|actions| - 1], id);
    }
  }

  lemma RecordedStep(s: State, a: Action, id: string)
    requires id != "" && id in s.records && NoneCommitted(s, id) && Answers(s, a, id)
    ensures var s' := Next(s, a);
      id in s'.records && NoneCommitted(s', id) && Count(s'.dispatched, id) == Count(s.dispatched, id)
  {
    if a.Step? && a.n < |s.phases| { CountMore(s.dispatched, s.phases[a.n].id, id); }
  }

  lemma CommittedDispatches(s: State, n: nat, id: string) returns (actions: seq<Action>)
    requires n < |s.phases| && Committed(s.phases[n], id)
    ensures AllAnswer(s, actions, id) && Count(After(s, actions).dispatched, id) == Count(s.dispatched, id) + 1
  {
    var step := Step(n, NoFault);
    OneMore(s, [], step, id);
    assert [] + [step] == [step];
    actions := [step];
    CountMore(s.dispatched, id, id);
    if s.phases[n].Writing? {
      OneMore(s, actions, step, id);
      actions := actions + [step];
    }
  }

  /** A further delivery of the event gets past its check: its id is empty, or its listing fails. */
  lemma FurtherDeliveryDispatches(s: State, id: string, failing: bool) returns (actions: seq<Action>)
    requires id == "" || failing
    ensures failing || AllAnswer(s, actions, id)
    ensures Count(After(s, actions).dispatched, id) == Count(s.dispatched, id) + 1
  {
    var n := |s.phases|;
    var check := Step(n, if failing then Lost else NoFault);
    OneMore(s, [], Arrive(id), id);
    assert [] + [Arrive(id)] == [Arrive(id)];
    OneMore(s, [Arrive(id)], check, id);
    actions := [Arrive(id)] + [check];
    OneMore(s, actions, Step(n, NoFault), id);
    OneMore(s, actions + [Step(n, NoFault)], Step(n, NoFault), id);
    CountMore(s.dispatched, id, id);
    actions := actions + [Step(n, NoFault)] + [Step(n, NoFault)];
  }

  /**
   * An event on record is never dispatched again, in any continuation with any further
   * deliveries of it, if and only if its id is not empty, no listing of it can fail, and no
   * delivery of it is past its check.
   */
  lemma DispatchIsFinalIff(s: State, id: string, failing: bool)
    requires id in s.records
    ensures (forall actions | failing || AllAnswer(s, actions, id) ::
               Count(After(s, actions).dispatched, id) == Count(s.dispatched, id))
       <==> id != "" && !failing && NoneCommitted(s, id)
  {
    if id != "" && !failing && NoneCommitted(s, id) {
      forall actions | AllAnswer(s, actions, id)
        ensures Count(After(s, actions).dispatched, id) == Count(s.dispatched, id)
      {
        UncommittedStayIdle(s, actions, id);
      }
    } else if id != "" && !failing {
      var n :| 0 <= n < |s.phases| && Committed(s.phases[n], id);
      var actions := CommittedDispatches(s, n, id);
      assert Count(After(s, actions).dispatched, id) != Count(s.dispatched, id);
    } else {
      var actions := FurtherDeliveryDispatches(s, id, failing);
      assert Count(After(s, actions).dispatched, id) != Count(s.dispatched, id);
    }
  }

  // ---------- before the event is on record ----------

  /** A delivery of the event that may still write its record. */
  predicate Live(p: Phase, id: string) { p == Arrived(id) || p == Writing(id) }

  ghost predicate OneLive(s: State, id: string) {
    forall i, j | 0 <= i < j < |s.phases| :: !(Live(s.phases[i], id) && Live(s.phases[j], id))
  }

  ghost predicate NoArrival(actions: seq<Action>, id: string) {
    forall i | 0 <= i < |actions| :: actions[i] != Arrive(id)
  }

  /** At most one record of the event is or can be written by the deliveries under way. */
  ghost predicate Alone(s: State, id: string) {
    if id in s.records then
      Count(s.records, id) == 1 && forall i | 0 <= i < |s.phases| :: !Live(s.phases[i], id)
    else OneLive(s, id)
  }

  lemma AloneStep(s: State, n: nat, fault: Fault, id: string)
    requires Alone(s, id) && n < |s.phases|
    ensures Alone(Next(s, Step(n, fault)), id)
  {
    var s' := Next(s, Step(n, fault));
    CountMore(s.records, s.phases[n].id, id);
    assert forall i | 0 <= i < |s.phases| && i != n :: s'.phases[i] == s.phases[i];
    assert Live(s'.phases[n], id) ==> Live(s.phases[n], id);
    hide Count;
  }

  lemma {:induction false} StaysAlone(s: State, actions: seq<Action>, id: string)
    requires Inv(s) && Alone(s, id) && NoArrival(actions, id)
    ensures Inv(After(s, actions)) && Alone(After(s, actions), id)
  {
    if actions != [] {
      var head, last := actions[..|actions| - 1], actions[|actions| - 1];
      assert NoArrival(head, id);
      StaysAlone(s, head, id);
      var m := After(s, head);
      InvNext(m, last);
      if last.Step? && last.n < |m.phases| { AloneStep(m, last.n, last.fault, id); }
    }
  }

  /** A live delivery of an event not on record passes its check, if it has not already. */
  lemma PassesCheck(s: State, past: seq<Action>, n: nat, id: string) returns (actions: seq<Action>)
    requires var t := After(s, past); id !in t.records && n < |t.phases| && Live(t.phases[n], id)
    ensures NoArrival(past, id) ==> NoArrival(actions, id)
    ensures var t := After(s, past); After(s, actions) == t.(phases := t.phases[n := Writing(id)])
  {
    var t := After(s, past);
    if t.phases[n].Writing? {
      assert t.phases[n := Writing(id)] == t.phases;
      actions := past;
    } else {
      OneMore(s, past, Step(n, NoFault), id);
      actions := past + [Step(n, NoFault)];
    }
  }

  /** A write accepted and its dispatch made. */
  lemma WriteThenSpawn(t: State, n: nat, id: string)
    requires n < |t.phases| && t.phases[n] == Writing(id)
    ensures var t' := Next(Next(t, Step(n, NoFault)), Step(n, NoFault));
      t'.dispatched == t.dispatched + [id] && t'.phases == t.phases[n := Acknowledged(id)]
  {}

  lemma WritesAndDispatches(s: State, past: seq<Action>, n: nat, id: string) returns (actions: seq<Action>)
    requires var t := After(s, past); n < |t.phases| && t.phases[n] == Writing(id)
    ensures NoArrival(past, id) ==> NoArrival(actions, id)
    ensures var t, t' := After(s, past), After(s, actions);
      Count(t'.dispatched, id) == Count(t.dispatched, id) + 1 && t'.phases == t.phases[n := Acknowledged(id)]
  {
    hide Next;
    var step := Step(n, NoFault);
    WriteThenSpawn(After(s, past), n, id);
    OneMore(s, past, step, id);
    OneMore(s, past + [step], step, id);
    CountMore(After(s, past).dispatched, id, id);
    actions := past + [step] + [step];
  }

  /** Two live deliveries dispatch the event twice, without a further one. */
  lemma TwoLiveDispatchTwice(s: State, past: seq<Action>, i: nat, j: nat, id: string) returns (actions: seq<Action>)
    requires var t := After(s, past);
      id !in t.records && i < j < |t.phases| && Live(t.phases[i], id) && Live(t.phases[j], id)
    ensures NoArrival(past, id) ==> NoArrival(actions, id)
    ensures Count(After(s, actions).dispatched, id) >= 2
  {
    actions := PassesCheck(s, past, i, id);
    actions := PassesCheck(s, actions, j, id);
    actions := WritesAndDispatches(s, actions, i, id);
    actions := WritesAndDispatches(s, actions, j, id);
  }

  /**
   * An event not on record yet is dispatched at most once, however its deliveries interleave
   * and whatever listings and writes fail, if and only if no further delivery of it arrives and
   * at most one of those under way may still write.
   */
  lemma AtMostOnceIff(s: State, id: string, further: bool)
    requires Inv(s) && id !in s.records
    ensures (forall actions | further || NoArrival(actions, id) :: Count(After(s, actions).dispatched, id) <= 1)
       <==> !further && OneLive(s, id)
  {
    if !further && OneLive(s, id) {
      forall actions | NoArrival(actions, id) ensures Count(After(s, actions).dispatched, id) <= 1 {
        StaysAlone(s, actions, id);
        assert Balanced(After(s, actions), id);
      }
    } else if !further {
      var i, j :| 0 <= i < j < |s.phases| && Live(s.phases[i], id) && Live(s.phases[j], id);
      assert After(s, []) == s;
      var actions := TwoLiveDispatchTwice(s, [], i, j, id);
      assert Count(After(s, actions).dispatched, id) > 1;
    } else {
      OneMore(s, [], Arrive(id), id);
      assert [] + [Arrive(id)] == [Arrive(id)];
      OneMore(s, [Arrive(id)], Arrive(id), id);
      var actions := TwoLiveDispatchTwice(s, [Arrive(id)] + [Arrive(id)], |s.phases|, |s.phases| + 1, id);
      assert Count(After(s, actions).dispatched, id) > 1;
    }
  }

  lemma Extend(actions: seq<Action>, a: Action)
    ensures After(Init, actions + [a]) == Next(After(Init, actions), a)
    ensures forall id | AllCheckApart(actions, id) && ChecksApart(After(Init, actions), a, id) ::
      AllCheckApart(actions + [a], id)
  {
    var all := actions + [a];
    assert all[..|actions|] == actions;
    forall id, i | AllCheckApart(actions, id) && ChecksApart(After(Init, actions), a, id) && 0 <= i < |all|
      ensures ChecksApart(After(Init, all[..i]), all[i], id)
    {
      if i < |actions| { assert all[..i] == actions[..i] && ChecksApart(After(Init, actions[..i]), actions[i], id); }
    }
  }

  /** Whole deliveries one after the other, each with the fault of its write; no listing fails. */
  function Sequential(ds: seq<(string, Fault)>): seq<Action> {
    if ds == [] then []
    else
      var n, last := |ds| - 1, ds[|ds| - 1];
      Sequential(ds[..n]) + [Arrive(last.0)] + [Step(n, NoFault)] + [Step(n, last.1)] + [Step(n, NoFault)]
  }

  /** The fault of the first write of the event that took effect, if any did. */
  function FirstLanding(ds: seq<(string, Fault)>, id: string): Option<Fault> {
    if ds == [] then None
    else
      var last := ds[|ds| - 1];
      var before := FirstLanding(ds[..|ds| - 1], id);
      if before.None? && last.0 == id && last.1 != Lost then Some(last.1) else before
  }

  /** Call-atomic deliveries never overlap in their checks, so ExactlyOnceIff applies to them. */
  lemma {:induction false} SequentialChecksApart(ds: seq<(string, Fault)>, id: string)
    ensures AllCheckApart(Sequential(ds), id)
    ensures |After(Init, Sequential(ds)).phases| == |ds|
    ensures InCheck(After(Init, Sequential(ds)).phases, id) == Pending(After(Init, Sequential(ds)).phases, id) == 0
  {
    if ds != [] {
      var n, last := |ds| - 1, ds[|ds| - 1];
      var base := Sequential(ds[..n]);
      SequentialChecksApart(ds[..n], id);
      var arrived, checked := base + [Arrive(last.0)], base + [Arrive(last.0)] + [Step(n, NoFault)];
      Extend(base, Arrive(last.0));
      Extend(arrived, Step(n, NoFault));
      Extend(checked, Step(n, last.1));
      Extend(checked + [Step(n, last.1)], Step(n, NoFault));
      WholeDelivery(After(Init, base), last.0, last.1, id);
    }
  }

  /** One whole delivery more, step by step. */
  lemma SequentialStep(ds: seq<(string, Fault)>)
    requires ds != []
    ensures var n, last := |ds| - 1, ds[|ds| - 1];
      After(Init, Sequential(ds))
      == Next(Next(Next(Next(After(Init, Sequential(ds[..n])), Arrive(last.0)), Step(n, NoFault)), Step(n, last.1)),
              Step(n, NoFault))
  {
    var n, last := |ds| - 1, ds[|ds| - 1];
    var base := Sequential(ds[..n]);
    var checked := base + [Arrive(last.0)] + [Step(n, NoFault)];
    Extend(base, Arrive(last.0));
    Extend(base + [Arrive(last.0)], Step(n, NoFault));
    Extend(checked, Step(n, last.1));
    Extend(checked + [Step(n, last.1)], Step(n, NoFault));
  }

  /** The phases a whole delivery passes through. */
  lemma DeliveryPhases(s: State, x: string, write: Fault)
    ensures var n := |s.phases|;
      var arrived := Next(s, Arrive(x));
      var checked := Next(arrived, Step(n, NoFault));
      var written := Next(checked, Step(n, write));
      var done := Next(written, Step(n, NoFault));
      && arrived.phases == s.phases + [Arrived(x)]
      && checked.phases == s.phases + [checked.phases[n]] && !checked.phases[n].Arrived?
      && written.phases == s.phases + [written.phases[n]] && !written.phases[n].Arrived? && !written.phases[n].Writing?
      && done.phases == s.phases + [done.phases[n]] && !done.phases[n].Writing? && !done.phases[n].Spawning?
  {}

  /** The steps of a whole delivery leave it past its write and its dispatch. */
  lemma WholeDelivery(s: State, x: string, write: Fault, id: string)
    requires InCheck(s.phases, id) == 0
    ensures var n := |s.phases|;
      var arrived := Next(s, Arrive(x));
      var checked := Next(arrived, Step(n, NoFault));
      var written := Next(checked, Step(n, write));
      var done := Next(written, Step(n, NoFault));
      && ChecksApart(s, Arrive(x), id) && ChecksApart(arrived, Step(n, NoFault), id)
      && ChecksApart(checked, Step(n, write), id) && ChecksApart(written, Step(n, NoFault), id)
      && |done.phases| == n + 1 && InCheck(done.phases, id) == 0 && Pending(done.phases, id) == Pending(s.phases, id)
  {
    hide Next;
    DeliveryPhases(s, x, write);
  }

  /** What a whole delivery leaves behind. */
  lemma DeliveryEffect(s: State, x: string, write: Fault)
    ensures var n := |s.phases|;
      var done := Next(Next(Next(Next(s, Arrive(x)), Step(n, NoFault)), Step(n, write)), Step(n, NoFault));
      && done.records == (if (x != "" && x in s.records) || write == Lost then s.records else s.records + [x])
      && done.dispatched == (if (x != "" && x in s.records) || write != NoFault then s.dispatched else s.dispatched + [x])
  {}

  /**
   * Call-atomic deliveries, repeated and reordered at will: an event is on record if and only
   * if some write of it took effect, and it is dispatched exactly once if and only if the first
   * that took effect was acknowledged, and otherwise never.
   */
  lemma {:induction false} SequentialIsExactlyOnce(ds: seq<(string, Fault)>, id: string)
    requires id != ""
    ensures var s := After(Init, Sequential(ds));
      && (id in s.records <==> FirstLanding(ds, id).Some?)
      && Count(s.dispatched, id) == if FirstLanding(ds, id) == Some(NoFault) then 1 else 0
  {
    if ds != [] {
      var n, last := |ds| - 1, ds[|ds| - 1];
      SequentialIsExactlyOnce(ds[..n], id);
      SequentialChecksApart(ds[..n], id);
      SequentialStep(ds);
      var s := After(Init, Sequential(ds[..n]));
      DeliveryEffect(s, last.0, last.1);
      CountMore(s.dispatched, last.0, id);
    }
  }

  /** An acknowledged event, none of whose refused writes took effect, is dispatched exactly once. */
  lemma AcknowledgedIsDispatchedOnce(ds: seq<(string, Fault)>, id: string)
    requires id != "" && Acknowledged(id) in After(Init, Sequential(ds)).phases
    requires (id, AppliedUnacknowledged) !in ds
    ensures Count(After(Init, Sequential(ds)).dispatched, id) == 1
  {
    Conservation(Sequential(ds));
    SequentialIsExactlyOnce(ds, id);
    LandingIsListed(ds, id);
  }

  lemma {:induction false} LandingIsListed(ds: seq<(string, Fault)>, id: string)
    ensures var first := FirstLanding(ds, id);
      first.Some? ==> first.value != Lost && (id, first.value) in ds
  {
    if ds != [] {
      LandingIsListed(ds[..|ds| - 1], id);
      assert ds[|ds| - 1] in ds;
    }
  }

  /** Two overlapping deliveries of one event, without any fault, dispatch it twice. */
  lemma OverlapDispatchesTwice() returns (run: seq<Action>)
    ensures forall i | 0 <= i < |run| && run[i].Step? :: run[i].fault == NoFault
    ensures After(Init, run).dispatched == ["e", "e"]
  {
    var first, second := Step(0, NoFault), Step(1, NoFault);
    run := [];
    Extend(run, Arrive("e"));
    run := run + [Arrive("e")];
    Extend(run, Arrive("e"));
    run := run + [Arrive("e")];
    Extend(run, first);
    run := run + [first];
    Extend(run, second);
    run := run + [second];
    assert After(Init, run) == State([], [], [Writing("e"), Writing("e")]);
    Extend(run, first);
    run := run + [first];
    Extend(run, second);
    run := run + [second];
    assert After(Init, run) == State(["e", "e"], [], [Spawning("e"), Spawning("e")]);
    Extend(run, first);
    run := run + [first];
    Extend(run, second);
    run := run + [second];
  }
}
