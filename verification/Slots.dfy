/** Classifying an interview slot against the busy times of its participants. */
module Slots {
  import opened Foundations

  /** Milliseconds, or the not-a-number of an unreadable date or number. */
  datatype Time = At(ms: real) | NaN

  /** `a < b`: false as soon as one side is not a number. */
  predicate Less(a: Time, b: Time) {
    a.At? && b.At? && a.ms < b.ms
  }

  function Plus(a: Time, b: Time): Time {
    if a.At? && b.At? then At(a.ms + b.ms) else NaN
  }

  function Minus(a: Time, b: Time): Time {
    if a.At? && b.At? then At(a.ms - b.ms) else NaN
  }

  datatype Interval = Interval(start: Time, end: Time)

  datatype Participant = Participant(confirmed: bool, busy: seq<Interval>)

  datatype SlotState = Unknown | Conflict | BufferShort | Unconfirmed | Available

  function Milliseconds(minutes: Time): Time {
    if minutes.At? then At(minutes.ms * 60000.0) else NaN
  }

  /** slotWindow: the slot from its start and its duration. */
  function SlotWindow(start: Time, duration: Time): Interval {
    Interval(start, Plus(start, duration))
  }

  predicate Overlaps(slot: Interval, busy: Interval) {
    Less(slot.start, busy.end) && Less(busy.start, slot.end)
  }

  /** The same test with the busy interval widened on both sides. */
  predicate TooClose(slot: Interval, busy: Interval, buffer: Time) {
    Less(slot.start, Plus(busy.end, buffer)) && Less(Minus(busy.start, buffer), slot.end)
  }

  predicate Blocks(slot: Interval, busy: Interval, buffer: Time) {
    Overlaps(slot, busy) || TooClose(slot, busy, buffer)
  }

  /** What one busy interval says about a slot. */
  function Label(slot: Interval, busy: Interval, buffer: Time): Option<SlotState> {
    if Overlaps(slot, busy) then Some(Conflict)
    else if TooClose(slot, busy, buffer) then Some(BufferShort)
    else None
  }

  function FirstLabel(slot: Interval, busy: seq<Interval>, buffer: Time): Option<SlotState> {
    if busy == [] then None
    else if Label(slot, busy[0], buffer).Some? then Label(slot, busy[0], buffer)
    else FirstLabel(slot, busy[1..], buffer)
  }

  /** All busy intervals, in the order they are visited. */
  function AllBusy(participants: seq<Participant>): seq<Interval> {
    if participants == [] then [] else participants[0].busy + AllBusy(participants[1..])
  }

  predicate AllConfirmed(participants: seq<Participant>) {
    forall i :: 0 <= i < |participants| ==> participants[i].confirmed
  }

  /** The classification: the first interval that objects decides, then confirmation. */
  function Classify(ready: bool, slot: Interval, buffer: Time, participants: seq<Participant>): SlotState {
    if !ready then Unknown
    else match FirstLabel(slot, AllBusy(participants), buffer)
      case Some(state) => state
      case None => if AllConfirmed(participants) then Available else Unconfirmed
  }

  lemma {:induction false} FirstLabelConcat(slot: Interval, a: seq<Interval>, b: seq<Interval>, buffer: Time)
    ensures FirstLabel(slot, a + b, buffer) ==
            if FirstLabel(slot, a, buffer).Some? then FirstLabel(slot, a, buffer) else FirstLabel(slot, b, buffer)
    decreases |a|
  {
    if a == [] {
      assert a + b == b;
    } else {
      assert (a + b)[0] == a[0] && (a + b)[1..] == a[1..] + b;
      FirstLabelConcat(slot, a[1..], b, buffer);
    }
  }

  lemma {:induction false} AllBusySnoc(front: seq<Participant>, p: Participant)
    ensures AllBusy(front + [p]) == AllBusy(front) + p.busy
    decreases |front|
  {
    if front == [] {
      assert front + [p] == [p] && [p][1..] == [];
    } else {
      assert (front + [p])[0] == front[0] && (front + [p])[1..] == front[1..] + [p];
      AllBusySnoc(front[1..], p);
    }
  }

  /** The slot that begins at `start` and lasts so many minutes meets the busy time. */
  ghost predicate Meets(start: Time, minutes: Time, b: Interval) {
    && start.At? && minutes.At? && b.start.At? && b.end.At?
    && start.ms < b.end.ms && b.start.ms < start.ms + minutes.ms * 60000.0
  }

  /** The same of the busy time with so many minutes more before and after it. */
  ghost predicate ComesNear(start: Time, minutes: Time, bufferMinutes: Time, b: Interval) {
    bufferMinutes.At? && b.start.At? && b.end.At?
    && Meets(start, minutes, Interval(At(b.start.ms - bufferMinutes.ms * 60000.0),
                                      At(b.end.ms + bufferMinutes.ms * 60000.0)))
  }

  ghost predicate Objects(start: Time, minutes: Time, bufferMinutes: Time, b: Interval) {
    Meets(start, minutes, b) || ComesNear(start, minutes, bufferMinutes, b)
  }

  /** The n-th busy time is the first that objects. */
  ghost predicate FirstObjects(start: Time, minutes: Time, bufferMinutes: Time, busy: seq<Interval>, n: int) {
    && 0 <= n < |busy| && Objects(start, minutes, bufferMinutes, busy[n])
    && forall m :: 0 <= m < n ==> !Objects(start, minutes, bufferMinutes, busy[m])
  }

  lemma ObjectsIff(start: Time, minutes: Time, bufferMinutes: Time, b: Interval)
    ensures
      var slot, buffer := SlotWindow(start, Milliseconds(minutes)), Milliseconds(bufferMinutes);
      && (Overlaps(slot, b) <==> Meets(start, minutes, b))
      && (TooClose(slot, b, buffer) <==> ComesNear(start, minutes, bufferMinutes, b))
  {
  }

  lemma {:induction false} FirstLabelIs(start: Time, minutes: Time, bufferMinutes: Time, busy: seq<Interval>)
    ensures
      var found := FirstLabel(SlotWindow(start, Milliseconds(minutes)), busy, Milliseconds(bufferMinutes));
      && (found.None? <==> forall n :: 0 <= n < |busy| ==> !Objects(start, minutes, bufferMinutes, busy[n]))
      && (found.Some? ==>
            exists n :: FirstObjects(start, minutes, bufferMinutes, busy, n)
                        && found.value == if Meets(start, minutes, busy[n]) then Conflict else BufferShort)
    decreases |busy|
  {
    if busy != [] {
      ObjectsIff(start, minutes, bufferMinutes, busy[0]);
      FirstLabelIs(start, minutes, bufferMinutes, busy[1..]);
      if Objects(start, minutes, bufferMinutes, busy[0]) {
        assert FirstObjects(start, minutes, bufferMinutes, busy, 0);
      } else if n :| FirstObjects(start, minutes, bufferMinutes, busy[1..], n) {
        assert forall m :: 0 < m < |busy| ==> busy[m] == busy[1..][m - 1];
        assert FirstObjects(start, minutes, bufferMinutes, busy, n + 1);
      } else {
        assert forall m :: 0 < m < |busy| ==> busy[m] == busy[1..][m - 1];
      }
    }
  }

  /** What an answer says. Unknown: the data are not there. Conflict or short of buffer: some busy time
      objects, and the first that does is met or only come near. Available or unconfirmed: none
      does, and everyone has confirmed or somebody has not. */
  ghost predicate Means(
      state: SlotState, ready: bool, start: Time, minutes: Time, bufferMinutes: Time, participants: seq<Participant>)
  {
    var busy := AllBusy(participants);
    && (state == Unknown <==> !ready)
    && (ready ==> (state == Conflict || state == BufferShort <==>
                   exists n :: 0 <= n < |busy| && Objects(start, minutes, bufferMinutes, busy[n])))
    && (state == Conflict || state == BufferShort ==>
          exists n :: FirstObjects(start, minutes, bufferMinutes, busy, n)
                      && (state == Conflict <==> Meets(start, minutes, busy[n])))
    && (state == Available ==> forall i :: 0 <= i < |participants| ==> participants[i].confirmed)
    && (state == Unconfirmed ==> exists i :: 0 <= i < |participants| && !participants[i].confirmed)
  }

  lemma ClassifyMeans(
      ready: bool, start: Time, minutes: Time, bufferMinutes: Time, participants: seq<Participant>)
    ensures Means(Classify(ready, SlotWindow(start, Milliseconds(minutes)), Milliseconds(bufferMinutes), participants),
                  ready, start, minutes, bufferMinutes, participants)
  {
    FirstLabelIs(start, minutes, bufferMinutes, AllBusy(participants));
  }

  /** The two nested loops, leaving at the first objection. */
  method ScanParticipants(selected: Interval, buffer: Time, participants: seq<Participant>) returns (state: SlotState)
    ensures state == Classify(true, selected, buffer, participants)
  {
    var unconfirmed := false;
    for i := 0 to |participants|
      invariant FirstLabel(selected, AllBusy(participants[..i]), buffer) == None
      invariant unconfirmed <==> !AllConfirmed(participants[..i])
    {
      var participant := participants[i];
      assert participants[..i + 1] == participants[..i] + [participant];
      assert participants == participants[..i + 1] + participants[i + 1..];
      AllBusySnoc(participants[..i], participant);
      ghost var before := AllBusy(participants[..i]);
      assert before + participant.busy[..0] == before;
      if !participant.confirmed { unconfirmed := true; }
      for j := 0 to |participant.busy|
        invariant FirstLabel(selected, before + participant.busy[..j], buffer) == None
      {
        var busy := participant.busy[j];
        ghost var seen := before + participant.busy[..j];
        assert before + participant.busy[..j + 1] == seen + [busy];
        FirstLabelConcat(selected, seen, [busy], buffer);
        Visited(selected, participants, i, j, buffer);
        if Less(selected.start, busy.end) && Less(busy.start, selected.end) { return Conflict; }
        if Less(selected.start, Plus(busy.end, buffer)) && Less(Minus(busy.start, buffer), selected.end) {
          return BufferShort;
        }
        assert [busy][1..] == [];
      }
      assert participant.busy[..|participant.busy|] == participant.busy;
    }
    assert participants[..|participants|] == participants;
    return if unconfirmed then Unconfirmed else Available;
  }

  /** getAvailabilitySlotState: the slot is a conflict or short of buffer by the first busy time that
      objects: one that it meets, or one that it comes nearer than the buffer, on either side. With no
      objection, confirmation decides. */
  method GetAvailabilitySlotState(
      ready: bool, start: Time, minutes: Time, bufferMinutes: Time, participants: seq<Participant>)
    returns (state: SlotState)
    ensures
      var slot, buffer := SlotWindow(start, Milliseconds(minutes)), Milliseconds(bufferMinutes);
      state == Classify(ready, slot, buffer, participants)
    ensures Means(state, ready, start, minutes, bufferMinutes, participants)
  {
    ClassifyMeans(ready, start, minutes, bufferMinutes, participants);
    if !ready { return Unknown; }
    var selected, buffer := SlotWindow(start, Milliseconds(minutes)), Milliseconds(bufferMinutes);
    state := ScanParticipants(selected, buffer, participants);
  }

  lemma {:induction false} AllBusyConcat(a: seq<Participant>, b: seq<Participant>)
    ensures AllBusy(a + b) == AllBusy(a) + AllBusy(b)
    decreases |a|
  {
    if a == [] {
      assert a + b == b;
    } else {
      assert (a + b)[0] == a[0] && (a + b)[1..] == a[1..] + b;
      AllBusyConcat(a[1..], b);
    }
  }

  /** An objection found at one place of the walk is the first one of the whole. */
  lemma Visited(slot: Interval, participants: seq<Participant>, i: nat, j: nat, buffer: Time)
    requires i < |participants| && j < |participants[i].busy|
    requires FirstLabel(slot, AllBusy(participants[..i]) + participants[i].busy[..j], buffer) == None
    ensures Label(slot, participants[i].busy[j], buffer).Some? ==>
              FirstLabel(slot, AllBusy(participants), buffer) == Label(slot, participants[i].busy[j], buffer)
  {
    var p := participants[i];
    var seen := AllBusy(participants[..i]) + p.busy[..j];
    var rest := p.busy[j + 1..] + AllBusy(participants[i + 1..]);
    assert participants == participants[..i] + participants[i..] && participants[i..][1..] == participants[i + 1..];
    AllBusyConcat(participants[..i], participants[i..]);
    assert p.busy == p.busy[..j] + [p.busy[j]] + p.busy[j + 1..];
    assert AllBusy(participants) == seen + ([p.busy[j]] + rest);
    FirstLabelConcat(slot, seen, [p.busy[j]] + rest, buffer);
  }

  // ----- what the classification means -----

  predicate Blocked(state: SlotState) {
    state.Conflict? || state.BufferShort?
  }

  lemma {:induction false} FirstLabelIff(slot: Interval, busy: seq<Interval>, buffer: Time)
    ensures FirstLabel(slot, busy, buffer).Some? <==> exists b :: b in busy && Blocks(slot, b, buffer)
    ensures FirstLabel(slot, busy, buffer) == Some(Conflict) ==> exists b :: b in busy && Overlaps(slot, b)
    ensures FirstLabel(slot, busy, buffer).Some? ==> Blocked(FirstLabel(slot, busy, buffer).value)
    decreases |busy|
  {
    if busy != [] {
      FirstLabelIff(slot, busy[1..], buffer);
      assert busy == [busy[0]] + busy[1..] && busy[0] in busy;
    }
  }

  /** A slot is blocked exactly when some busy interval objects; it is available exactly when
      none does and everyone has confirmed; and it is unconfirmed in the one case left. */
  lemma SlotStateIff(slot: Interval, buffer: Time, participants: seq<Participant>)
    ensures
      var state := Classify(true, slot, buffer, participants);
      var blocked := exists b :: b in AllBusy(participants) && Blocks(slot, b, buffer);
      && (Blocked(state) <==> blocked)
      && (state == Available <==> !blocked && AllConfirmed(participants))
      && (state == Unconfirmed <==> !blocked && !AllConfirmed(participants))
      && state != Unknown
  {
    FirstLabelIff(slot, AllBusy(participants), buffer);
  }

  /** With a buffer that is not negative, the widened test alone decides; and a proper slot is blocked
      by a proper busy time exactly when it shares an instant with it widened on both sides. */
  lemma WidenedTestDecides(start: Time, minutes: Time, bufferMinutes: Time, busy: Interval)
    requires bufferMinutes.At? && bufferMinutes.ms >= 0.0
    ensures
      var slot, buffer := SlotWindow(start, Milliseconds(minutes)), Milliseconds(bufferMinutes);
      && (Blocks(slot, busy, buffer) <==> ComesNear(start, minutes, bufferMinutes, busy))
      && (start.At? && minutes.At? && minutes.ms > 0.0 && Proper(busy) ==>
            (Blocks(slot, busy, buffer) <==>
             ShareAnInstant(Interval(start, At(start.ms + minutes.ms * 60000.0)),
                            Interval(At(busy.start.ms - bufferMinutes.ms * 60000.0),
                                     At(busy.end.ms + bufferMinutes.ms * 60000.0)))))
  {
    ObjectsIff(start, minutes, bufferMinutes, busy);
    if start.At? && minutes.At? && minutes.ms > 0.0 && Proper(busy) {
      var n := bufferMinutes.ms * 60000.0;
      OverlapIsSharedInstant(Interval(start, At(start.ms + minutes.ms * 60000.0)),
                             Interval(At(busy.start.ms - n), At(busy.end.ms + n)));
    }
  }

  /** The busy times are those of all participants. */
  lemma {:induction false} AllBusyAre(participants: seq<Participant>, b: Interval)
    ensures b in AllBusy(participants) <==> exists p :: p in participants && b in p.busy
    decreases |participants|
  {
    if participants != [] {
      AllBusyAre(participants[1..], b);
      assert participants == [participants[0]] + participants[1..];
    }
  }

  function Confirmations(participants: seq<Participant>): multiset<bool> {
    if participants == [] then multiset{} else multiset{participants[0].confirmed} + Confirmations(participants[1..])
  }

  lemma {:induction false} ConfirmedIff(participants: seq<Participant>)
    ensures AllConfirmed(participants) <==> false !in Confirmations(participants)
    decreases |participants|
  {
    if participants != [] {
      ConfirmedIff(participants[1..]);
      assert participants == [participants[0]] + participants[1..];
    }
  }

  lemma {:induction false} ConfirmationsConcat(a: seq<Participant>, b: seq<Participant>)
    ensures Confirmations(a + b) == Confirmations(a) + Confirmations(b)
    decreases |a|
  {
    if a == [] {
      assert a + b == b;
    } else {
      assert (a + b)[0] == a[0] && (a + b)[1..] == a[1..] + b;
      ConfirmationsConcat(a[1..], b);
    }
  }

  /** What a list of participants holds, one of them taken out. */
  lemma OneOut(front: seq<Participant>, p: Participant, back: seq<Participant>)
    ensures multiset(AllBusy(front + [p] + back)) == multiset(p.busy) + multiset(AllBusy(front + back))
    ensures Confirmations(front + [p] + back) == multiset{p.confirmed} + Confirmations(front + back)
  {
    var one := [p];
    assert one[1..] == [];
    assert AllBusy(one) == p.busy + [] == p.busy;
    AllBusyConcat(front + one, back);
    AllBusyConcat(front, one);
    AllBusyConcat(front, back);
    ConfirmationsConcat(front + one, back);
    ConfirmationsConcat(front, one);
    ConfirmationsConcat(front, back);
  }

  lemma TakenOut(front: seq<Participant>, p: Participant, back: seq<Participant>)
    ensures multiset(front + [p] + back) == multiset{p} + multiset(front + back)
  {
  }

  lemma SameRest(p: Participant, a: multiset<Participant>, b: multiset<Participant>)
    requires multiset{p} + a == multiset{p} + b
    ensures a == b
  {
    assert a == (multiset{p} + a) - multiset{p};
    assert b == (multiset{p} + b) - multiset{p};
  }

  /** The first of one list lies somewhere in the other, and the rest of both is the same. */
  lemma FindFirst(a: seq<Participant>, b: seq<Participant>) returns (front: seq<Participant>, back: seq<Participant>)
    requires a != [] && multiset(a) == multiset(b)
    ensures b == front + [a[0]] + back && multiset(a[1..]) == multiset(front + back)
  {
    assert a[0] in multiset(b);
    var j :| 0 <= j < |b| && b[j] == a[0];
    front, back := b[..j], b[j + 1..];
    var rest := a[1..];
    assert b == front + [a[0]] + back && a == [] + [a[0]] + rest && rest == [] + rest;
    TakenOut([], a[0], rest);
    TakenOut(front, a[0], back);
    SameRest(a[0], multiset(rest), multiset(front + back));
  }

  /** Another order of the participants. */
  lemma {:induction false} ParticipantsPermuted(a: seq<Participant>, b: seq<Participant>)
    requires multiset(a) == multiset(b)
    ensures multiset(AllBusy(a)) == multiset(AllBusy(b)) && Confirmations(a) == Confirmations(b)
    decreases |a|
  {
    if a == [] {
      assert |multiset(b)| == 0;
    } else {
      var front, back := FindFirst(a, b);
      var rest := a[1..];
      assert a == [] + [a[0]] + rest && rest == [] + rest;
      ParticipantsPermuted(rest, front + back);
      OneOut([], a[0], rest);
      OneOut(front, a[0], back);
    }
  }

  /** The same participants, each with the same busy times in some order. */
  ghost predicate SameBusyTimes(a: seq<Participant>, b: seq<Participant>) {
    |a| == |b| && forall i :: 0 <= i < |a| ==>
      a[i].confirmed == b[i].confirmed && multiset(a[i].busy) == multiset(b[i].busy)
  }

  lemma {:induction false} BusyTimesPermuted(a: seq<Participant>, b: seq<Participant>)
    requires SameBusyTimes(a, b)
    ensures multiset(AllBusy(a)) == multiset(AllBusy(b)) && Confirmations(a) == Confirmations(b)
    decreases |a|
  {
    if a != [] {
      assert SameBusyTimes(a[1..], b[1..]);
      BusyTimesPermuted(a[1..], b[1..]);
    }
  }

  /** Nor does it matter who is busy when: only all busy times and all confirmations count. */
  lemma OnlyTotalsMatter(slot: Interval, buffer: Time, a: seq<Participant>, b: seq<Participant>)
    requires multiset(AllBusy(a)) == multiset(AllBusy(b)) && Confirmations(a) == Confirmations(b)
    ensures
      var x, y := Classify(true, slot, buffer, a), Classify(true, slot, buffer, b);
      x == y || (Blocked(x) && Blocked(y))
  {
    ConfirmedIff(a);
    ConfirmedIff(b);
    forall i ensures i in AllBusy(a) <==> i in AllBusy(b) {
      assert i in multiset(AllBusy(a)) <==> i in multiset(AllBusy(b));
    }
    SlotStateIff(slot, buffer, a);
    SlotStateIff(slot, buffer, b);
  }

  /** Neither the order of the participants nor that of the busy times of each matters to whether a
      slot is blocked, available or unconfirmed: `mixed` are the participants of `a` in any order,
      and those of `b` are the same with their busy times in any order. */
  lemma OrderIndependent(
      slot: Interval, buffer: Time, a: seq<Participant>, mixed: seq<Participant>, b: seq<Participant>)
    requires multiset(a) == multiset(mixed) && SameBusyTimes(mixed, b)
    ensures
      var x, y := Classify(true, slot, buffer, a), Classify(true, slot, buffer, b);
      x == y || (Blocked(x) && Blocked(y))
  {
    ParticipantsPermuted(a, mixed);
    BusyTimesPermuted(mixed, b);
    OnlyTotalsMatter(slot, buffer, a, b);
  }

  /** A longer slot or a wider buffer never frees what a shorter or narrower one finds blocked. */
  lemma BlockingIsMonotone(
      start: Time, duration: real, longer: real, buffer: real, wider: real, participants: seq<Participant>)
    requires duration <= longer && 0.0 <= buffer <= wider
    requires Blocked(Classify(true, SlotWindow(start, At(duration)), At(buffer), participants))
    ensures Blocked(Classify(true, SlotWindow(start, At(longer)), At(wider), participants))
  {
    var slot, more := SlotWindow(start, At(duration)), SlotWindow(start, At(longer));
    SlotStateIff(slot, At(buffer), participants);
    SlotStateIff(more, At(wider), participants);
    var b :| b in AllBusy(participants) && Blocks(slot, b, At(buffer));
    assert Blocks(more, b, At(wider));
  }

  /** Two proper intervals have an instant strictly inside both. */
  ghost predicate ShareAnInstant(a: Interval, b: Interval) {
    a.start.At? && a.end.At? && b.start.At? && b.end.At? &&
    exists t: real :: Inside(a, t) && Inside(b, t)
  }

  predicate Inside(a: Interval, t: real) {
    a.start.At? && a.end.At? && a.start.ms < t < a.end.ms
  }

  predicate Proper(a: Interval) {
    Less(a.start, a.end)
  }

  lemma OverlapIsSharedInstant(a: Interval, b: Interval)
    requires Proper(a) && Proper(b)
    ensures Overlaps(a, b) <==> ShareAnInstant(a, b)
  {
    if Overlaps(a, b) {
      var low := if a.start.ms < b.start.ms then b.start.ms else a.start.ms;
      var high := if a.end.ms < b.end.ms then a.end.ms else b.end.ms;
      var t := (low + high) / 2.0;
      assert Inside(a, t) && Inside(b, t);
    }
  }

  /** Without a buffer, a proper slot among proper busy times is blocked exactly when it shares
      an instant with one of them, and then as a conflict: back to back is allowed. */
  lemma NoBufferMeansTrueOverlap(slot: Interval, participants: seq<Participant>)
    requires Proper(slot) && forall b :: b in AllBusy(participants) ==> Proper(b)
    ensures
      var state := Classify(true, slot, At(0.0), participants);
      && (Blocked(state) <==> exists b :: b in AllBusy(participants) && ShareAnInstant(slot, b))
      && state != BufferShort
  {
    SlotStateIff(slot, At(0.0), participants);
    forall b | b in AllBusy(participants) ensures Blocks(slot, b, At(0.0)) <==> ShareAnInstant(slot, b) {
      OverlapIsSharedInstant(slot, b);
    }
    NoBufferLabels(slot, AllBusy(participants));
  }

  lemma {:induction false} NoBufferLabels(slot: Interval, busy: seq<Interval>)
    ensures FirstLabel(slot, busy, At(0.0)) != Some(BufferShort)
    decreases |busy|
  {
    if busy != [] {
      NoBufferLabels(slot, busy[1..]);
      if TooClose(slot, busy[0], At(0.0)) { assert Overlaps(slot, busy[0]); }
    }
  }

  /** A busy interval with an unreadable bound blocks nothing, and an unreadable slot is never
      blocked: the classification then rests on the other intervals and on confirmation alone. */
  lemma UnreadableNeverBlocks(slot: Interval, busy: Interval, buffer: Time)
    requires slot.start.NaN? || slot.end.NaN? || busy.start.NaN? || busy.end.NaN?
    ensures !Blocks(slot, busy, buffer)
  {
  }

  // ----- the slots of a day -----

  /** buildInterviewTimeSlots, as minutes since midnight. */
  function SlotMinutes(startHour: int, endHour: int, step: int): (minutes: seq<int>)
    requires step > 0
  {
    var start, end := startHour * 60, endHour * 60;
    if end < start then [] else seq((end - start) / step + 1, i => start + i * step)
  }

  lemma TimesOrder(a: int, b: int, step: int)
    requires a <= b && step > 0
    ensures a * step <= b * step
  {
    assert (b - a) * step >= 0;
    assert b * step == a * step + (b - a) * step;
  }

  lemma StepCount(span: int, step: int, i: int)
    requires step > 0 && span >= 0 && i >= 0
    ensures i <= span / step <==> i * step <= span
  {
    var q := span / step;
    assert span == q * step + span % step;
    if i <= q {
      TimesOrder(i, q, step);
    } else {
      TimesOrder(q + 1, i, step);
      assert (q + 1) * step == q * step + step;
    }
  }

  /** m is i whole steps after the start. */
  predicate IsStep(start: int, step: int, i: int, m: int) {
    i >= 0 && m == start + i * step
  }

  /** The slots of a day are exactly the whole steps from the first hour to the last, the last
      hour included when a step falls on it. */
  lemma SlotMinutesIff(startHour: int, endHour: int, step: int, m: int)
    requires step > 0
    ensures m in SlotMinutes(startHour, endHour, step) <==>
            m <= endHour * 60 && exists i :: IsStep(startHour * 60, step, i, m)
  {
    var start, end := startHour * 60, endHour * 60;
    var slots := SlotMinutes(startHour, endHour, step);
    if m in slots {
      var i :| 0 <= i < |slots| && slots[i] == m;
      StepCount(end - start, step, i);
      assert IsStep(start, step, i, m);
    }
    if m <= end && exists i :: IsStep(start, step, i, m) {
      var i :| IsStep(start, step, i, m);
      assert i * step >= 0;
      StepCount(end - start, step, i);
      assert slots[i] == m;
    }
  }

  // ----- the texts of the slots -----

  /** String(n) */
  function NumberText(n: int): string {
    if n < 0 then "-" + Decimal(-n) else Decimal(n)
  }

  /** padStart(2, "0") */
  function PadStart(s: string): string {
    if |s| >= 2 then s else if |s| == 1 then "0" + s else "00"
  }

  /** The remainder of `%`, which has the sign of its left operand. */
  function Remainder(m: int): int {
    if m < 0 then -((-m) % 60) else m % 60
  }

  /** Hours and minutes, padded. Dafny's quotient by 60 is rounded down like Math.floor. */
  function TimeText(m: int): string {
    PadStart(NumberText(m / 60)) + ":" + PadStart(NumberText(Remainder(m)))
  }

  /** buildInterviewTimeSlots */
  function SlotTexts(startHour: int, endHour: int, step: int): seq<string>
    requires step > 0
  {
    var minutes := SlotMinutes(startHour, endHour, step);
    seq(|minutes|, i requires 0 <= i < |minutes| => TimeText(minutes[i]))
  }

  /** The number that decimal digits spell. */
  function DigitsValue(s: string): Option<nat> {
    if s == "" then Some(0)
    else
      var last, front := s[|s| - 1], DigitsValue(s[..|s| - 1]);
      if front.None? || !('0' <= last <= '9') then None else Some(10 * front.value + (last as int - '0' as int))
  }

  /** How the schedule page reads a time: hours, a colon, two digits of minutes. */
  function ReadTime(t: string): Option<nat> {
    if |t| < 3 || t[|t| - 3] != ':' then None
    else
      var hours, minutes := DigitsValue(t[..|t| - 3]), DigitsValue(t[|t| - 2..]);
      if hours.None? || minutes.None? then None else Some(60 * hours.value + minutes.value)
  }

  lemma {:induction false} DecimalReads(n: nat)
    ensures DigitsValue(Decimal(n)) == Some(n) && Decimal(n) != ""
    ensures n < 10 ==> |Decimal(n)| == 1
    ensures 10 <= n < 100 ==> |Decimal(n)| == 2
    ensures n >= 10 ==> |Decimal(n)| >= 2
  {
    if n >= 10 {
      DecimalReads(n / 10);
      var s := Decimal(n);
      assert s[..|s| - 1] == Decimal(n / 10);
    } else {
      assert [Digit(n)][..0] == "";
    }
  }

  lemma PaddedReads(n: nat)
    ensures DigitsValue(PadStart(Decimal(n))) == Some(n)
    ensures n < 100 ==> |PadStart(Decimal(n))| == 2
  {
    DecimalReads(n);
    if n < 10 { ZeroFirst(n); }
  }

  lemma ZeroFirst(n: nat)
    requires n < 10
    ensures DigitsValue("0" + [Digit(n)]) == Some(n)
  {
    var s := "0" + [Digit(n)];
    assert "0"[..0] == "";
    assert DigitsValue("0") == Some(0);
    assert s[..|s| - 1] == "0" && s[|s| - 1] == Digit(n);
  }

  /** Every time of a day on or after midnight is read back from its text of five characters. */
  lemma TimeReadsBack(m: nat)
    ensures ReadTime(TimeText(m)) == Some(m)
    ensures m < 100 * 60 ==> |TimeText(m)| == 5
  {
    var hours, minutes := PadStart(Decimal(m / 60)), PadStart(Decimal(m % 60));
    PaddedReads(m / 60);
    PaddedReads(m % 60);
    var t := TimeText(m);
    assert t == hours + ":" + minutes;
    assert t[..|t| - 3] == hours && t[|t| - 2..] == minutes;
  }

  /** The texts of a day's slots, in order, name exactly the whole steps from the first hour to the
      last, each once: a time is read from one of them exactly when it is such a step. */
  lemma SlotTextsIff(startHour: int, endHour: int, step: int, m: nat)
    requires step > 0 && startHour >= 0
    ensures (exists t :: t in SlotTexts(startHour, endHour, step) && ReadTime(t) == Some(m)) <==>
            m <= endHour * 60 && exists i :: IsStep(startHour * 60, step, i, m)
    ensures
      var texts := SlotTexts(startHour, endHour, step);
      forall i, j :: 0 <= i < j < |texts| ==>
        ReadTime(texts[i]).Some? && ReadTime(texts[j]).Some? && ReadTime(texts[i]).value < ReadTime(texts[j]).value
  {
    var minutes, texts := SlotMinutes(startHour, endHour, step), SlotTexts(startHour, endHour, step);
    SlotMinutesIff(startHour, endHour, step, m);
    MinutesGrow(startHour, endHour, step);
    forall i | 0 <= i < |texts| ensures ReadTime(texts[i]) == Some(minutes[i]) { TimeReadsBack(minutes[i]); }
    if m in minutes {
      var i :| 0 <= i < |minutes| && minutes[i] == m;
      assert texts[i] in texts;
    }
  }

  lemma MinutesGrow(startHour: int, endHour: int, step: int)
    requires step > 0 && startHour >= 0
    ensures
      var minutes := SlotMinutes(startHour, endHour, step);
      && (forall i :: 0 <= i < |minutes| ==> minutes[i] >= 0)
      && forall i, j :: 0 <= i < j < |minutes| ==> minutes[i] < minutes[j]
  {
    var minutes := SlotMinutes(startHour, endHour, step);
    forall i | 0 <= i < |minutes| ensures minutes[i] >= 0 { TimesOrder(0, i, step); }
    forall i, j | 0 <= i < j < |minutes| ensures minutes[i] < minutes[j] { TimesOrder(i + 1, j, step); }
  }

  /** Before midnight both parts carry a minus sign, and the hour is rounded down. */
  lemma TimeBeforeMidnight(n: int)
    requires n > 0
    ensures TimeText(-n) ==
            PadStart("-" + Decimal((n + 59) / 60)) + ":" + if n % 60 == 0 then "00" else PadStart("-" + Decimal(n % 60))
  {
    assert (-n) / 60 == -((n + 59) / 60);
    assert [Digit(0)] == "0";
  }
}
