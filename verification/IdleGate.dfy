// The idle gate: how long each analyzer slot has stood idle while there was work it could
// have had. The gate works event by event; here it is tied to the whole trace.
module IdleGate {
  import opened Options

  datatype Outcome = Succeeded | Failed | Cancelled

  datatype Kind =
    | SchedulingState
    | AnalyzerStarted(slot: nat, configuration: nat)
    | AnalyzerFinished(slot: nat, configuration: nat, outcome: Outcome)
    | ConversionStarted(configuration: nat)
    | ConversionFinished(configuration: nat, outcome: Outcome)

  datatype Event = Event(sequence: nat, time: real, kind: Kind, unscheduled: nat, held: nat, maxSpool: nat, slotCount: nat)

  // What the constructor of an event insists on.
  predicate WellFormed(e: Event) {
    && e.sequence >= 1 && e.time >= 0.0 && e.maxSpool >= 1 && e.slotCount >= 1 && e.held <= e.maxSpool
    && (e.kind.AnalyzerStarted? || e.kind.AnalyzerFinished? ==> e.kind.slot < e.slotCount)
  }

  // The trace, read as a whole -----------------------------------------------------------------

  // Is the slot analysing after these events, and what?
  function Active(es: seq<Event>, k: nat): bool {
    if es == [] then false
    else
      var e := es[|es| - 1];
      if e.kind.AnalyzerStarted? && e.kind.slot == k then true
      else if e.kind.AnalyzerFinished? && e.kind.slot == k then false
      else Active(es[..|es| - 1], k)
  }

  function LastConfiguration(es: seq<Event>, k: nat): Option<nat> {
    if es == [] then None
    else
      var e := es[|es| - 1];
      if (e.kind.AnalyzerStarted? || e.kind.AnalyzerFinished?) && e.kind.slot == k then Some(e.kind.configuration)
      else LastConfiguration(es[..|es| - 1], k)
  }

  // Idle: not analysing, though work is unscheduled and spool capacity free.
  predicate Idle(es: seq<Event>, k: nat) {
    es != [] && !Active(es, k)
    && es[|es| - 1].unscheduled > 0 && es[|es| - 1].held < es[|es| - 1].maxSpool
  }

  // The current interval of idleness began with event number m, and is maximal.
  ghost predicate Interval(es: seq<Event>, k: nat, m: nat) {
    && 1 <= m <= |es|
    && (forall n :: m <= n <= |es| ==> Idle(es[..n], k))
    && (m > 1 ==> !Idle(es[..m - 1], k))
  }

  function Start(es: seq<Event>, k: nat): (m: nat)
    requires Idle(es, k)
    ensures 1 <= m <= |es|
  {
    var before := es[..|es| - 1];
    if Idle(before, k) then Start(before, k) else |es|
  }

  lemma {:induction false} StartIsInterval(es: seq<Event>, k: nat)
    requires Idle(es, k)
    ensures Interval(es, k, Start(es, k))
  {
    var before := es[..|es| - 1];
    var m := Start(es, k);
    if Idle(before, k) {
      StartIsInterval(before, k);
      forall n | m <= n <= |es|
        ensures Idle(es[..n], k)
      {
        if n < |es| {
          assert es[..n] == before[..n];
        } else {
          assert es[..n] == es;
        }
      }
      assert m > 1 ==> es[..m - 1] == before[..m - 1];
    } else {
      assert es[..|es|] == es;
    }
  }

  lemma IntervalNotLater(es: seq<Event>, k: nat, m: nat, n: nat)
    requires Interval(es, k, m) && Interval(es, k, n)
    ensures m <= n
  {
    var before := es[..m - 1];
    assert n < m ==> Idle(before, k);
  }

  lemma IntervalIsUnique(es: seq<Event>, k: nat, m: nat, n: nat)
    requires Interval(es, k, m) && Interval(es, k, n)
    ensures m == n
  {
    IntervalNotLater(es, k, m, n);
    IntervalNotLater(es, k, n, m);
  }

  // Since when the slot has been idle.
  function Since(es: seq<Event>, k: nat): Option<real> {
    if Idle(es, k) then Some(es[Start(es, k) - 1].time) else None
  }

  // What can happen to a gate: an event, or a look at the clock.
  datatype Moment = Saw(event: Event) | Looked(now: real)

  function At(m: Moment): real {
    if m.Saw? then m.event.time else m.now
  }

  function Events(trace: seq<Moment>): seq<Event> {
    if trace == [] then []
    else
      var before := Events(trace[..|trace| - 1]);
      if trace[|trace| - 1].Saw? then before + [trace[|trace| - 1].event] else before
  }

  // The idle time that a moment measures for a slot.
  function Waited(es: seq<Event>, k: nat, now: real): real {
    if Idle(es, k) then now - Since(es, k).value else 0.0
  }

  function MeasuredAt(trace: seq<Moment>, n: nat, k: nat): real
    requires n < |trace|
  {
    Waited(Events(trace[..n]), k, At(trace[n]))
  }

  // v is the longest time measured anywhere in the trace.
  ghost predicate Longest(trace: seq<Moment>, k: nat, v: real) {
    && v >= 0.0
    && (forall n :: 0 <= n < |trace| ==> MeasuredAt(trace, n, k) <= v)
    && (v > 0.0 ==> exists n :: 0 <= n < |trace| && MeasuredAt(trace, n, k) == v)
  }

  lemma LongestNotLess(trace: seq<Moment>, k: nat, v: real, w: real)
    requires Longest(trace, k, v) && Longest(trace, k, w)
    ensures w <= v
  {
    if w > 0.0 {
      var n :| 0 <= n < |trace| && MeasuredAt(trace, n, k) == w;
    }
  }

  lemma LongestIsUnique(trace: seq<Moment>, k: nat, v: real, w: real)
    requires Longest(trace, k, v) && Longest(trace, k, w)
    ensures v == w
  {
    LongestNotLess(trace, k, v, w);
    LongestNotLess(trace, k, w, v);
  }

  lemma LongestGrows(trace: seq<Moment>, k: nat, v: real, m: Moment)
    requires Longest(trace, k, v)
    ensures var d := Waited(Events(trace), k, At(m)); Longest(trace + [m], k, if d > v then d else v)
  {
    hide Waited, Events;
    var after := trace + [m];
    var d := Waited(Events(trace), k, At(m));
    assert after[..|trace|] == trace;
    assert MeasuredAt(after, |trace|, k) == d;
    forall n | 0 <= n < |trace|
      ensures MeasuredAt(after, n, k) == MeasuredAt(trace, n, k)
    {
      assert after[..n] == trace[..n];
    }
    if d <= v && v > 0.0 {
      var n :| 0 <= n < |trace| && MeasuredAt(trace, n, k) == v;
      assert MeasuredAt(after, n, k) == v;
    }
  }

  // The gate, event by event --------------------------------------------------------------------

  predicate Actionable(unscheduled: nat, held: nat, maxSpool: nat) {
    unscheduled > 0 && held < maxSpool
  }

  datatype Slot = Slot(active: bool, idleSince: Option<real>, maximum: real, configuration: Option<nat>)

  datatype Verdict =
    | Accepted | NotContiguous | TimeBackwards | SlotCountChanged | StartedTwice | FinishedUnexpected | IdleTooLong(slot: nat)

  // The slot record that belongs to a trace.
  ghost predicate Matches(slot: Slot, trace: seq<Moment>, k: nat) {
    && slot.active == Active(Events(trace), k)
    && slot.idleSince == Since(Events(trace), k)
    && slot.configuration == LastConfiguration(Events(trace), k)
    && Longest(trace, k, slot.maximum)
  }

  // An event the gate has no complaint about, idleness aside.
  predicate Fits(es: seq<Event>, e: Event) {
    && e.sequence == |es| + 1
    && (es != [] ==> es[|es| - 1].time <= e.time && es[|es| - 1].slotCount == e.slotCount)
    && (e.kind.AnalyzerStarted? ==> !Active(es, e.kind.slot))
    && (e.kind.AnalyzerFinished? ==> Active(es, e.kind.slot) && LastConfiguration(es, e.kind.slot) == Some(e.kind.configuration))
  }

  predicate TooLong(es: seq<Event>, slotCount: nat, now: real, limit: real) {
    exists k :: 0 <= k < slotCount && Waited(es, k, now) > limit
  }

  // The first checks on an event: sequence, time and slot count.
  predicate InOrder(es: seq<Event>, e: Event) {
    && e.sequence == |es| + 1
    && (es != [] ==> es[|es| - 1].time <= e.time && es[|es| - 1].slotCount == e.slotCount)
  }

  // What is said against an event that is refused for its shape, the first objection counting.
  predicate Objected(es: seq<Event>, e: Event, late: bool, verdict: Verdict) {
    && (verdict.NotContiguous? <==> e.sequence != |es| + 1)
    && (verdict.TimeBackwards? <==> e.sequence == |es| + 1 && es != [] && e.time < es[|es| - 1].time)
    && (verdict.SlotCountChanged? <==>
          e.sequence == |es| + 1 && es != [] && es[|es| - 1].time <= e.time && es[|es| - 1].slotCount != e.slotCount)
    && (verdict.StartedTwice? <==> InOrder(es, e) && !late && e.kind.AnalyzerStarted? && Active(es, e.kind.slot))
    && (verdict.FinishedUnexpected? <==>
          && InOrder(es, e) && !late && e.kind.AnalyzerFinished?
          && !(Active(es, e.kind.slot) && LastConfiguration(es, e.kind.slot) == Some(e.kind.configuration)))
  }

  lemma Objection(es: seq<Event>, e: Event, late: bool, verdict: Verdict)
    requires match verdict
             case NotContiguous => e.sequence != |es| + 1
             case TimeBackwards => e.sequence == |es| + 1 && es != [] && e.time < es[|es| - 1].time
             case SlotCountChanged =>
               e.sequence == |es| + 1 && es != [] && es[|es| - 1].time <= e.time && es[|es| - 1].slotCount != e.slotCount
             case IdleTooLong(_) => InOrder(es, e) && late
             case StartedTwice => InOrder(es, e) && !late && e.kind.AnalyzerStarted? && Active(es, e.kind.slot)
             case FinishedUnexpected =>
               InOrder(es, e) && !late && e.kind.AnalyzerFinished?
               && !(Active(es, e.kind.slot) && LastConfiguration(es, e.kind.slot) == Some(e.kind.configuration))
             case Accepted => Fits(es, e) && !late
    ensures Objected(es, e, late, verdict)
  {
    hide Active, LastConfiguration;
  }

  function Measured(slot: Slot, es: seq<Event>, k: nat, now: real): Slot {
    if Waited(es, k, now) > slot.maximum then slot.(maximum := Waited(es, k, now)) else slot
  }

  function Applied(slot: Slot, actionable: bool, now: real): Slot {
    if slot.active || !actionable then slot.(idleSince := None)
    else if slot.idleSince.None? then slot.(idleSince := Some(now))
    else slot
  }

  // What starting or finishing does to a slot's record.
  function Told(slot: Slot, kind: Kind, k: nat): Slot {
    if kind.AnalyzerStarted? && kind.slot == k then slot.(active := true, idleSince := None, configuration := Some(kind.configuration))
    else if kind.AnalyzerFinished? && kind.slot == k then slot.(active := false, configuration := Some(kind.configuration))
    else slot
  }

  // The first slot whose wait exceeds the limit.
  ghost predicate FirstLate(es: seq<Event>, count: nat, now: real, limit: real, slot: nat) {
    slot < count && Waited(es, slot, now) > limit && forall j :: 0 <= j < slot ==> Waited(es, j, now) <= limit
  }

  lemma EventsAfter(trace: seq<Moment>, m: Moment)
    ensures Events(trace + [m]) == Events(trace) + if m.Saw? then [m.event] else []
  {
    assert (trace + [m])[..|trace|] == trace;
  }

  lemma FreshSlots()
    ensures forall k :: Matches(Slot(false, None, 0.0, None), [], k)
  {
    forall k
      ensures Longest([], k, 0.0)
    {
    }
  }

  lemma MaximumNotNegative(slot: Slot, trace: seq<Moment>, k: nat)
    requires Matches(slot, trace, k)
    ensures slot.maximum >= 0.0
  {
  }

  // How one more event changes what is said of a slot.
  lemma OneMoreEvent(es: seq<Event>, e: Event, k: nat)
    ensures var after := es + [e];
            && Active(after, k) == (if e.kind.AnalyzerStarted? && e.kind.slot == k then true
                                    else if e.kind.AnalyzerFinished? && e.kind.slot == k then false else Active(es, k))
            && LastConfiguration(after, k) == (if (e.kind.AnalyzerStarted? || e.kind.AnalyzerFinished?) && e.kind.slot == k
                                               then Some(e.kind.configuration) else LastConfiguration(es, k))
            && Since(after, k) == if Active(after, k) || !Actionable(e.unscheduled, e.held, e.maxSpool) then None
                                  else if Idle(es, k) then Since(es, k) else Some(e.time)
  {
    var after := es + [e];
    assert after[..|es|] == es;
    if Idle(after, k) && Idle(es, k) {
      assert after[Start(es, k) - 1] == es[Start(es, k) - 1];
    }
  }

  lemma MatchesAfter(slot: Slot, trace: seq<Moment>, k: nat, e: Event)
    requires Matches(slot, trace, k) && Fits(Events(trace), e)
    ensures Matches(Applied(Told(Measured(slot, Events(trace), k, e.time), e.kind, k), Actionable(e.unscheduled, e.held, e.maxSpool), e.time),
                    trace + [Saw(e)], k)
  {
    var es := Events(trace);
    EventsAfter(trace, Saw(e));
    OneMoreEvent(es, e, k);
    LongestGrows(trace, k, slot.maximum, Saw(e));
    assert Active(es, k) ==> Since(es, k) == None;
    hide Events, Longest, Active, LastConfiguration, Start, Waited;
  }

  lemma MatchesAfterLook(slot: Slot, trace: seq<Moment>, k: nat, now: real)
    requires Matches(slot, trace, k)
    ensures Matches(Measured(slot, Events(trace), k, now), trace + [Looked(now)], k)
  {
    EventsAfter(trace, Looked(now));
    LongestGrows(trace, k, slot.maximum, Looked(now));
    assert Events(trace + [Looked(now)]) == Events(trace);
    hide Events, Longest, Active, LastConfiguration, Start, Waited, Since;
  }

  ghost predicate AllMatch(slots: seq<Slot>, trace: seq<Moment>) {
    forall k :: 0 <= k < |slots| ==> Matches(slots[k], trace, k)
  }

  lemma MaximaNotNegative(slots: seq<Slot>, trace: seq<Moment>)
    requires AllMatch(slots, trace)
    ensures forall k :: 0 <= k < |slots| ==> slots[k].idleSince == Since(Events(trace), k) && slots[k].maximum >= 0.0
  {
    hide Events, Longest, Active, LastConfiguration, Since;
    forall k | 0 <= k < |slots|
      ensures slots[k].maximum >= 0.0
    {
      MaximumNotNegative(slots[k], trace, k);
    }
  }

  lemma AllMatchAfter(slots: seq<Slot>, slots': seq<Slot>, trace: seq<Moment>, e: Event)
    requires AllMatch(slots, trace) && Fits(Events(trace), e) && |slots'| == |slots|
    requires forall k :: 0 <= k < |slots| ==>
                           slots'[k] == Applied(Told(Measured(slots[k], Events(trace), k, e.time), e.kind, k),
                                                Actionable(e.unscheduled, e.held, e.maxSpool), e.time)
    ensures AllMatch(slots', trace + [Saw(e)])
  {
    hide Matches, Events, Applied, Told, Measured, Fits;
    forall k | 0 <= k < |slots'|
      ensures Matches(slots'[k], trace + [Saw(e)], k)
    {
      MatchesAfter(slots[k], trace, k, e);
    }
  }

  class AnalyzerSlotIdleGate {
    const maxIdle: real
    var slots: Option<seq<Slot>>
    var lastSequence: nat
    var lastTime: real
    var unscheduled: nat
    var held: nat
    var maxSpool: nat
    ghost var trace: seq<Moment>

    ghost predicate Valid()
      reads this
    {
      var es := Events(trace);
      && maxIdle > 0.0 && lastSequence == |es|
      && (slots.None? <==> es == [])
      && lastTime == (if es == [] then 0.0 else es[|es| - 1].time)
      && (es != [] ==>
            var e := es[|es| - 1];
            && unscheduled == e.unscheduled && held == e.held && maxSpool == e.maxSpool && |slots.value| == e.slotCount
            && AllMatch(slots.value, trace))
      && (es == [] ==> trace == [])
    }

    constructor (maxIdle: real)
      requires maxIdle > 0.0
      ensures Valid() && trace == [] && this.maxIdle == maxIdle
    {
      this.maxIdle := maxIdle;
      slots, lastSequence, lastTime, unscheduled, held, maxSpool, trace := None, 0, 0.0, 0, 0, 1, [];
    }

    // Measures every open interval up to now; with `enforce`, stops at the first that is too long.
    method MeasureIdle(now: real, enforce: bool) returns (late: Option<nat>)
      requires slots.Some? && maxIdle > 0.0
      requires forall k :: 0 <= k < |slots.value| ==> slots.value[k].idleSince == Since(Events(trace), k) && slots.value[k].maximum >= 0.0
      modifies this`slots
      ensures slots.Some? && |slots.value| == |old(slots).value|
      ensures late.Some? <==> enforce && TooLong(Events(trace), |slots.value|, now, maxIdle)
      ensures late.Some? ==> FirstLate(Events(trace), |slots.value|, now, maxIdle, late.value)
      ensures late.None? ==>
                forall k :: 0 <= k < |slots.value| ==> slots.value[k] == Measured(old(slots).value[k], Events(trace), k, now)
    {
      hide Events, Active, Start, Idle;
      ghost var es := Events(trace);
      ghost var before := slots.value;
      var done := slots.value;
      for k := 0 to |done|
        invariant |done| == |before| && slots == old(slots)
        invariant forall j :: 0 <= j < k ==> done[j] == Measured(before[j], es, j, now)
        invariant forall j :: k <= j < |done| ==> done[j] == before[j]
        invariant enforce ==> forall j :: 0 <= j < k ==> Waited(es, j, now) <= maxIdle
      {
        var slot := done[k];
        assert slot.idleSince == Since(es, k);
        if slot.idleSince.Some? {
          var duration := now - slot.idleSince.value;
          if duration > slot.maximum {
            done := done[k := slot.(maximum := duration)];
          }
          if enforce && duration > maxIdle {
            slots := Some(done);
            return Some(k);
          }
        }
      }
      slots := Some(done);
      return None;
    }

    // Records that a slot has started or finished.
    method UpdateSlot(kind: Kind)
      requires slots.Some? && (kind.AnalyzerStarted? || kind.AnalyzerFinished? ==> kind.slot < |slots.value|)
      modifies this`slots
      ensures slots.Some? && |slots.value| == |old(slots).value|
      ensures forall k :: 0 <= k < |slots.value| ==> slots.value[k] == Told(old(slots).value[k], kind, k)
    {
      if kind.AnalyzerStarted? {
        var slot := slots.value[kind.slot].(active := true, idleSince := None, configuration := Some(kind.configuration));
        slots := Some(slots.value[kind.slot := slot]);
      } else if kind.AnalyzerFinished? {
        var slot := slots.value[kind.slot].(active := false, configuration := Some(kind.configuration));
        slots := Some(slots.value[kind.slot := slot]);
      }
    }

    // Opens, keeps or closes each slot's interval under the current counts.
    method ApplyCurrentIdleState(now: real)
      requires slots.Some?
      modifies this`slots
      ensures slots.Some? && |slots.value| == |old(slots).value|
      ensures forall k :: 0 <= k < |slots.value| ==>
                slots.value[k] == Applied(old(slots).value[k], Actionable(unscheduled, held, maxSpool), now)
    {
      var actionable := Actionable(unscheduled, held, maxSpool);
      ghost var before := slots.value;
      var done := slots.value;
      for k := 0 to |done|
        invariant |done| == |before|
        invariant forall j :: 0 <= j < |done| ==> done[j] == if j < k then Applied(before[j], actionable, now) else before[j]
      {
        if done[k].active || !actionable {
          done := done[k := done[k].(idleSince := None)];
        } else if done[k].idleSince.None? {
          done := done[k := done[k].(idleSince := Some(now))];
        }
      }
      slots := Some(done);
    }

    // One event. It is refused for its shape, or for a slot idle too long, or taken into account.
    method Observe(e: Event) returns (verdict: Verdict)
      requires Valid() && WellFormed(e)
      modifies this
      ensures verdict.Accepted? <==> Fits(Events(old(trace)), e) && !TooLong(Events(old(trace)), e.slotCount, e.time, maxIdle)
      ensures verdict.Accepted? ==> Valid() && trace == old(trace) + [Saw(e)]
      ensures verdict.IdleTooLong? <==> InOrder(Events(old(trace)), e) && TooLong(Events(old(trace)), e.slotCount, e.time, maxIdle)
      ensures verdict.IdleTooLong? ==> FirstLate(Events(old(trace)), e.slotCount, e.time, maxIdle, verdict.slot)
      ensures Objected(Events(old(trace)), e, TooLong(Events(old(trace)), e.slotCount, e.time, maxIdle), verdict)
    {
      hide Events, Longest, Active, LastConfiguration, Idle, Waited, TooLong, Since, Objected;
      ghost var es := Events(trace);
      if e.sequence != lastSequence + 1 {
        Objection(es, e, TooLong(es, e.slotCount, e.time, maxIdle), NotContiguous);
        return NotContiguous;
      }
      if e.time < lastTime {
        Objection(es, e, TooLong(es, e.slotCount, e.time, maxIdle), TimeBackwards);
        return TimeBackwards;
      }
      if slots.None? {
        slots := Some(seq(e.slotCount, _ => Slot(false, None, 0.0, None)));
        FreshSlots();
      } else if |slots.value| != e.slotCount {
        Objection(es, e, TooLong(es, e.slotCount, e.time, maxIdle), SlotCountChanged);
        return SlotCountChanged;
      }
      ghost var first := slots.value;
      assert AllMatch(first, trace);
      MaximaNotNegative(first, trace);
      var late := MeasureIdle(e.time, true);
      if late.Some? {
        Objection(es, e, true, IdleTooLong(late.value));
        return IdleTooLong(late.value);
      }
      lastSequence, lastTime := e.sequence, e.time;
      unscheduled, held, maxSpool := e.unscheduled, e.held, e.maxSpool;
      if e.kind.AnalyzerStarted? && slots.value[e.kind.slot].active {
        assert Matches(first[e.kind.slot], trace, e.kind.slot);
        Objection(es, e, false, StartedTwice);
        return StartedTwice;
      }
      if e.kind.AnalyzerFinished? {
        assert Matches(first[e.kind.slot], trace, e.kind.slot);
        var slot := slots.value[e.kind.slot];
        if !slot.active || slot.configuration != Some(e.kind.configuration) {
          Objection(es, e, false, FinishedUnexpected);
          return FinishedUnexpected;
        }
      }
      UpdateSlot(e.kind);
      ApplyCurrentIdleState(e.time);
      AllMatchAfter(first, slots.value, trace, e);
      EventsAfter(trace, Saw(e));
      Objection(es, e, false, Accepted);
      trace := trace + [Saw(e)];
      return Accepted;
    }

    // A look at the clock between events.
    method Check(now: real) returns (verdict: Verdict)
      requires Valid()
      modifies this
      ensures verdict.Accepted? || verdict.TimeBackwards? || verdict.IdleTooLong?
      ensures verdict.TimeBackwards? <==> slots.Some? && now < lastTime
      ensures verdict.Accepted? ==> Valid() && trace == (if slots.Some? then old(trace) + [Looked(now)] else old(trace))
      ensures slots.Some? && lastTime <= now ==>
                (verdict.IdleTooLong? <==> TooLong(Events(old(trace)), |slots.value|, now, maxIdle))
      ensures verdict.IdleTooLong? ==> slots.Some? && FirstLate(Events(old(trace)), |slots.value|, now, maxIdle, verdict.slot)
    {
      hide Events, Longest, Active, LastConfiguration, Idle, Waited, TooLong, Since;
      if slots.None? {
        return Accepted;
      }
      if now < lastTime {
        return TimeBackwards;
      }
      ghost var first := slots.value;
      forall k | 0 <= k < |first|
        ensures first[k].maximum >= 0.0
      {
        MaximumNotNegative(first[k], trace, k);
      }
      var late := MeasureIdle(now, true);
      if late.Some? {
        return IdleTooLong(late.value);
      }
      forall k | 0 <= k < |slots.value|
        ensures Matches(slots.value[k], trace + [Looked(now)], k)
      {
        MatchesAfterLook(first[k], trace, k, now);
      }
      EventsAfter(trace, Looked(now));
      trace := trace + [Looked(now)];
      return Accepted;
    }
  }
}
