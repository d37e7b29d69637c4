/** When a chat room flushes: its alarm is set by sends and by the end of a flush, and is only
 * ever moved to an earlier time. */
module ChatRoomAlarm {
  import opened Wrappers
  import opened ChatRoomLog
  import opened ChatRoomSafety

  /** The alarm is set, no later than `target` and no later than it was, and to one of the two. */
  predicate Hastened(before: Option<int>, after: Option<int>, target: int) {
    && after.Some? && after.value <= target
    && (before.Some? ==> after.value <= before.value)
    && (after == Some(target) || after == before)
  }

  predicate AddsRow(s: State, e: Event) {
    (e.SendMessage? && (e.draft.senderId, e.key) !in s.idem) || e.SeedMessages?
  }

  // The time by which the event asks for the next flush, if it does.
  function Wanted(s: State, e: Event): Option<int> {
    match e
    case SendMessage(key, draft, now) => if (draft.senderId, key) in s.idem then None else Some(now + ALARM_DELAY_MS)
    case SeedMessages(_, now) => Some(now + ALARM_DELAY_MS)
    case FlightReportsOk(now) =>
      if s.flight.Some? && s.flight.value.landed
         && exists q :: q in s.pending && q !in Seqs(s.flight.value.rows) && s.pending[q].IsLive()
      then Some(now + ALARM_DELAY_MS) else None
    case FlightReportsError(now) => if s.flight.Some? then Some(now + ALARM_BACKOFF_MS) else None
    case Reload(now) => if s.flight.Some? then Some(now) else None
    case _ => None
  }

  /** Every event but the alarm itself leaves the alarm as it is or hastens it to the time the
   *  event asks for. */
  lemma AlarmIsOnlyHastened(s: State, e: Event)
    requires !e.AlarmFires?
    ensures var t := Step(s, e);
      && (Wanted(s, e).Some? ==> Hastened(s.alarm, t.alarm, Wanted(s, e).value))
      && (Wanted(s, e).None? ==> t.alarm == s.alarm)
      && (s.alarm.Some? ==> t.alarm.Some? && t.alarm.value <= s.alarm.value)
  {
    match e
    case SeedMessages(drafts, now) => AllocateAllKeepsAlarm(s, drafts, now);
    case FlightReportsOk(now) =>
      if s.flight.Some? {
        var left := s.pending - Seqs(s.flight.value.rows);
        assert forall q :: q in left <==> q in s.pending && q !in Seqs(s.flight.value.rows);
        assert forall q :: q in left ==> left[q] == s.pending[q];
      }
    case _ =>
  }

  lemma {:induction false} AllocateAllKeepsAlarm(s: State, drafts: seq<Draft>, now: int)
    ensures AllocateAll(s, drafts, now).alarm == s.alarm
    decreases |drafts|
  {
    if drafts != [] { AllocateAllKeepsAlarm(s, drafts[..|drafts| - 1], now); }
  }

  ghost predicate NoAlarmFires(events: seq<Event>) { forall i :: 0 <= i < |events| ==> !events[i].AlarmFires? }

  // Until an alarm fires, whatever happens, the next one does not move to a later time.
  lemma {:induction false} AlarmStaysDue(s: State, more: seq<Event>)
    requires NoAlarmFires(more) && s.alarm.Some?
    ensures var t := RunFrom(s, more); t.alarm.Some? && t.alarm.value <= s.alarm.value
    decreases |more|
  {
    if more != [] {
      AlarmStaysDue(s, more[..|more| - 1]);
      AlarmIsOnlyHastened(RunFrom(s, more[..|more| - 1]), more[|more| - 1]);
    }
  }

  /** Over every run: when a row is buffered at `now`, then until an alarm fires, however many
   *  rows follow, the alarm is set for `now` plus the flush delay or earlier. */
  lemma BufferedRowsAreDueInTime(events: seq<Event>, e: Event, more: seq<Event>)
    requires AddsRow(Run(events), e) && NoAlarmFires(more)
    ensures var t := RunFrom(Step(Run(events), e), more);
      t.alarm.Some? && t.alarm.value <= e.now + ALARM_DELAY_MS
  {
    AlarmIsOnlyHastened(Run(events), e);
    AlarmStaysDue(Step(Run(events), e), more);
  }

  /** Over every run: after an insert was reported to fail, until an alarm fires, the rows are
   *  due again within the back-off time. */
  lemma FailedRowsAreDueInTime(events: seq<Event>, now: int, more: seq<Event>)
    requires Run(events).flight.Some? && NoAlarmFires(more)
    ensures var t := RunFrom(Step(Run(events), FlightReportsError(now)), more);
      t.alarm.Some? && t.alarm.value <= now + ALARM_BACKOFF_MS
  {
    AlarmIsOnlyHastened(Run(events), FlightReportsError(now));
    AlarmStaysDue(Step(Run(events), FlightReportsError(now)), more);
  }
}
