/** The flush of a chat room: it makes progress, and it writes D1 in order. */
module ChatRoomProgress {
  import opened Wrappers
  import opened ChatRoomLog
  import opened ChatRoomSafety

  // ------------------------------------------------------------- staying armed

  // Outside a running alarm, a row still to be flushed has an alarm coming.
  ghost predicate Armed(s: State) {
    s.flight.None? && SomeLive(s.pending) ==> s.alarm.Some?
  }

  lemma StepKeepsArmed(s: State, e: Event)
    requires Inv(s) && NoPoison(s) && Armed(s)
    ensures Armed(Step(s, e))
  {
    match e
    case SeedMessages(drafts, now) => AllocateAllOnlyAppends(s, drafts, now);
    case AlarmFires(now) =>
      if s.alarm.Some? && s.flight.None? { FlushingStartsWhenLive(s); }
    case _ =>
  }

  // A live row is in the batch, or the batch is full of rows before it.
  lemma FlushingStartsWhenLive(s: State)
    requires Inv(s) && NoPoison(s)
    ensures SomeLive(s.pending) ==> AlarmBegin(s).flight.Some?
    ensures !SomeLive(s.pending) ==> !SomeLive(AlarmBegin(s).pending)
  {
    if SomeLive(s.pending) {
      var q :| q in s.pending && s.pending[q].IsLive();
      SelectBatchTakesTheLowest(s.pending, 1, s.nextSeq, MAX_PENDING_BATCH, q);
      var m := Batch(s)[0];
      assert m in Batch(s);
      BatchRows(s);
      assert Logged(s.log, m);
      assert m in GoodRows(Batch(s));
    }
  }

  lemma {:induction false} RunsStayArmed(events: seq<Event>)
    requires NoPoison(Run(events))
    ensures Armed(Run(events))
    decreases |events|
  {
    if events != [] {
      var front := events[..|events| - 1];
      RunKeeps(Init, front);
      LogOnlyGrows(Run(front), events[|events| - 1]);
      assert NoPoison(Run(front)) by {
        var s, t := Run(front), Run(events);
        forall i | 0 <= i < |s.log| ensures !s.log[i].message.IsPoison() { assert s.log[i] == t.log[i]; }
      }
      RunsStayArmed(front);
      StepKeepsArmed(Run(front), events[|events| - 1]);
    }
  }

  lemma LogOnlyGrows(s: State, e: Event)
    ensures s.log <= Step(s, e).log
  {
    match e
    case SeedMessages(drafts, now) => AllocateAllOnlyAppends(s, drafts, now);
    case _ =>
  }

  // A batch of poison rows only: they are dropped and the alarm ends there.
  lemma PoisonOnlyBatch(s: State)
    requires Inv(s) && forall m :: m in Batch(s) ==> m.IsPoison()
    ensures var t := AlarmBegin(s);
      && t == s.(alarm := None, pending := t.pending)
      && forall q :: q in t.pending <==> q in s.pending && s.pending[q].message !in Batch(s)
    ensures forall q :: q in AlarmBegin(s).pending ==> AlarmBegin(s).pending[q] == s.pending[q]
  {
    BatchRows(s);
    var batch := Batch(s);
    assert GoodRows(batch) == [] || GoodRows(batch)[0] in GoodRows(batch);
    forall q | q in s.pending
      ensures q in PoisonSeqs(batch) <==> s.pending[q].message in batch
    {
      assert s.pending[q].message in batch ==> s.pending[q].message.seqNo in PoisonSeqs(batch);
    }
  }

  /** With poison rows in the buffer the promise depends on the batch: firing the alarm
   *  keeps it exactly when the batch has a row with a channel or is all that is live. */
  lemma FiringKeepsArmedExactlyWhen(s: State)
    requires Inv(s) && s.flight.None?
    ensures Armed(AlarmBegin(s)) <==>
              || (exists m :: m in Batch(s) && !m.IsPoison())
              || (forall q :: q in s.pending && s.pending[q].IsLive() ==> s.pending[q].message in Batch(s))
  {
    BatchRows(s);
    if m :| m in Batch(s) && !m.IsPoison() {
      assert m in GoodRows(Batch(s));
    } else {
      PoisonOnlyBatch(s);
      var t := AlarmBegin(s);
      assert Armed(t) <==> forall q :: q in t.pending ==> !t.pending[q].IsLive();
    }
  }

  // A buffer whose seqs are exactly `from..upto`, every row of it live.
  ghost predicate IsLiveRange(pending: map<nat, PendingWrite>, from: nat, upto: nat) {
    && (forall q :: q in pending <==> from <= q <= upto)
    && (forall q :: q in pending ==> pending[q].IsLive() && pending[q].message.seqNo == q)
  }

  lemma {:induction false} SelectFromRange(
      pending: map<nat, PendingWrite>, low: nat, from: nat, upto: nat, limit: nat)
    requires IsLiveRange(pending, low, upto) && from <= upto + 1
    ensures var r := SelectBatch(pending, from, upto, limit);
      var start := if from < low then low else from;
      && |r| == (if start > upto then 0 else if limit < upto + 1 - start then limit else upto + 1 - start)
      && forall i :: 0 <= i < |r| ==> r[i] == pending[start + i].message
    decreases upto + 1 - from
  {
    if from > upto || limit == 0 {
    } else if from in pending {
      SelectFromRange(pending, low, from + 1, upto, limit - 1);
    } else {
      SelectFromRange(pending, low, from + 1, upto, limit);
      assert SelectBatch(pending, from, upto, limit) == SelectBatch(pending, from + 1, upto, limit);
    }
  }

  const NoChannel := Draft("id", "", "sender", System, "", None)
  const Welcome := Draft("id2", "channel", "sender", System, "hello", None)

  // Seeded rows without a channel, one good message, one alarm.
  function StrandingRun(n: nat): seq<Event> {
    [SeedMessages(seq(n, i => NoChannel), 0), SendMessage("key", Welcome, 0), AlarmFires(250)]
  }

  function BeforeStranding(n: nat): State {
    Send(Seed(Init, seq(n, i => NoChannel), 0), "key", Welcome, 0).0
  }

  lemma SeededState(n: nat)
    ensures var s := Seed(Init, seq(n, i => NoChannel), 0);
      && Inv(s) && s.flight.None? && s.alarm.Some? && s.nextSeq == n && |s.log| == n && s.idem == map[]
      && (forall q :: q in s.pending <==> 1 <= q <= n)
      && (forall q :: q in s.pending ==> s.pending[q] == PendingWrite(Message(NoChannel, q, 0, 0), 0))
  {
    var drafts := seq(n, i => NoChannel);
    SeedKeeps(Init, drafts, 0);
    AllocateAllOnlyAppends(Init, drafts, 0);
  }

  lemma FirstSend(s: State, n: nat)
    requires s.idem == map[] && s.nextSeq == n == |s.log|
    ensures var t := Send(s, "key", Welcome, 0).0;
      && t.pending == s.pending[n + 1 := PendingWrite(Message(Welcome, n + 1, 0, 0), 0)]
      && t.nextSeq == n + 1 && t.flight == s.flight && t.alarm.Some?
  {
  }

  lemma RangeAndOne(pending: map<nat, PendingWrite>, n: nat, row: PendingWrite)
    requires IsLiveRange(pending, 1, n) && row.IsLive() && row.message.seqNo == n + 1
    ensures IsLiveRange(pending[n + 1 := row], 1, n + 1)
  {
  }

  lemma StrandingState(n: nat)
    ensures var s := BeforeStranding(n);
      && Inv(s) && s.flight.None? && s.alarm.Some? && s.nextSeq == n + 1
      && IsLiveRange(s.pending, 1, n + 1)
      && s.pending[n + 1] == PendingWrite(Message(Welcome, n + 1, 0, 0), 0)
      && forall q :: 1 <= q <= n ==> s.pending[q].message.IsPoison()
  {
    var s := Seed(Init, seq(n, i => NoChannel), 0);
    SeededState(n);
    SendKeeps(s, "key", Welcome, 0);
    FirstSend(s, n);
    RangeAndOne(s.pending, n, PendingWrite(Message(Welcome, n + 1, 0, 0), 0));
  }

  // A batch of a long range is its first rows.
  lemma BatchOfRange(s: State, upto: nat)
    requires IsLiveRange(s.pending, 1, upto) && s.nextSeq == upto > MAX_PENDING_BATCH
    ensures forall m :: m in Batch(s) ==>
              1 <= m.seqNo <= MAX_PENDING_BATCH && m.seqNo in s.pending && m == s.pending[m.seqNo].message
  {
    SelectFromRange(s.pending, 1, 1, upto, MAX_PENDING_BATCH);
  }

  lemma StrandingBatch(n: nat)
    requires n >= MAX_PENDING_BATCH
    ensures var s := BeforeStranding(n);
      && (forall m :: m in Batch(s) ==> m.IsPoison())
      && Message(Welcome, n + 1, 0, 0) !in Batch(s)
  {
    StrandingState(n);
    BatchOfRange(BeforeStranding(n), n + 1);
  }

  /** The gap is real: with a batch or more of rows that have no channel, the good row
   *  behind them stays in the buffer and nothing will flush it. */
  lemma PoisonBatchStrandsALiveRow(n: nat)
    requires n >= MAX_PENDING_BATCH
    ensures var s := Run(StrandingRun(n));
      && !Armed(s)
      && n + 1 in s.pending && s.pending[n + 1].IsLive() && !s.pending[n + 1].message.IsPoison()
  {
    var s := BeforeStranding(n);
    StrandingState(n);
    StrandingBatch(n);
    PoisonOnlyBatch(s);
    RunOfThree(Init, StrandingRun(n));
    assert n + 1 in AlarmBegin(s).pending;
  }

  lemma RunOfThree(s: State, events: seq<Event>)
    requires |events| == 3
    ensures RunFrom(s, events) == Step(Step(Step(s, events[0]), events[1]), events[2])
  {
    assert events[..2][..1] == [events[0]];
    assert [events[0]][..0] == [];
    assert RunFrom(s, [events[0]]) == Step(s, events[0]);
    assert RunFrom(s, events[..2]) == Step(Step(s, events[0]), events[1]);
  }

  // ---------------------------------------------------------------- draining

  function Weight(pending: map<nat, PendingWrite>, q: nat): nat {
    if q in pending && pending[q].IsLive() then MAX_FLUSH_ATTEMPTS - pending[q].attempts else 0
  }

  // The flush attempts left, over all live rows.
  function Budget(pending: map<nat, PendingWrite>, upto: nat): nat {
    if upto == 0 then 0 else Budget(pending, upto - 1) + Weight(pending, upto)
  }

  lemma {:induction false} BudgetIsMonotone(p: map<nat, PendingWrite>, r: map<nat, PendingWrite>, upto: nat)
    requires forall q: nat :: Weight(r, q) <= Weight(p, q)
    ensures Budget(r, upto) <= Budget(p, upto)
    ensures forall q: nat :: 1 <= q <= upto && Weight(r, q) < Weight(p, q) ==> Budget(r, upto) < Budget(p, upto)
  {
    if upto != 0 { BudgetIsMonotone(p, r, upto - 1); }
  }

  lemma {:induction false} NoBudgetNoLiveRow(pending: map<nat, PendingWrite>, upto: nat)
    requires forall q :: q in pending ==> 1 <= q <= upto
    ensures Budget(pending, upto) == 0 ==> !SomeLive(pending)
  {
    if upto != 0 {
      var rest := pending - {upto};
      BudgetIsMonotone(pending, rest, upto - 1);
      NoBudgetNoLiveRow(rest, upto - 1);
      assert Budget(pending, upto) == 0 ==> Weight(pending, upto) == 0;
      assert forall q :: q in pending ==> q == upto || (q in rest && rest[q] == pending[q]);
    }
  }

  lemma {:induction false} NoLiveRowNoBudget(pending: map<nat, PendingWrite>, upto: nat)
    requires !SomeLive(pending)
    ensures Budget(pending, upto) == 0
  {
    if upto != 0 { NoLiveRowNoBudget(pending, upto - 1); }
  }

  // What can become of one D1 insert.
  datatype Outcome = Committed | CommittedButReportedFailed | Rejected

  // One alarm from its firing to its end.
  function Round(s: State, o: Outcome, now: int): State {
    var t := Step(s, AlarmFires(now));
    match o
    case Committed => Step(Step(t, FlightLands), FlightReportsOk(now))
    case CommittedButReportedFailed => Step(Step(t, FlightLands), FlightReportsError(now))
    case Rejected => Step(t, FlightReportsError(now))
  }

  // A batch is taken from the live rows, and only its poison rows go at once.
  lemma BatchIsAFlightOrSpent(s: State)
    requires Inv(s) && s.flight.None? && SomeLive(s.pending)
    ensures var t := AlarmBegin(s);
      && (forall q: nat :: Weight(t.pending, q) <= Weight(s.pending, q))
      && (t.flight.Some? || exists q: nat :: 1 <= q <= s.nextSeq && Weight(t.pending, q) < Weight(s.pending, q))
  {
    var live :| live in s.pending && s.pending[live].IsLive();
    SelectBatchTakesTheLowest(s.pending, 1, s.nextSeq, MAX_PENDING_BATCH, live);
    BatchRows(s);
    var m, t := Batch(s)[0], AlarmBegin(s);
    assert m in Batch(s);
    if m.IsPoison() {
      assert m.seqNo in PoisonSeqs(Batch(s));
      assert Weight(t.pending, m.seqNo) < Weight(s.pending, m.seqNo);
    } else {
      assert m in GoodRows(Batch(s));
    }
  }

  lemma FinishingSpends(s: State, now: int)
    requires Inv(s) && s.flight.Some?
    ensures forall q: nat :: Weight(FinishOk(s, now).pending, q) <= Weight(s.pending, q)
    ensures forall q: nat :: Weight(FinishError(s, now).pending, q) <= Weight(s.pending, q)
    ensures exists q: nat :: 1 <= q <= s.nextSeq
              && Weight(FinishOk(s, now).pending, q) < Weight(s.pending, q)
              && Weight(FinishError(s, now).pending, q) < Weight(s.pending, q)
  {
    var m := s.flight.value.rows[0];
    assert m in s.flight.value.rows && m.seqNo in Seqs(s.flight.value.rows);
    assert Weight(FinishOk(s, now).pending, m.seqNo) < Weight(s.pending, m.seqNo);
    assert Weight(FinishError(s, now).pending, m.seqNo) < Weight(s.pending, m.seqNo);
  }

  lemma RoundEnds(s: State, o: Outcome, now: int)
    requires s.flight.None? && s.alarm.Some?
    ensures var b := AlarmBegin(s); var t := Round(s, o, now);
      if b.flight.None? then t == b
      else
        && t.pending == (if o.Committed? then FinishOk(b, now) else FinishError(b, now)).pending
        && t.flight.None? && t.nextSeq == s.nextSeq
  {
  }

  lemma RoundKeepsInv(s: State, o: Outcome, now: int)
    requires Inv(s)
    ensures Inv(Round(s, o, now))
  {
    var b := Step(s, AlarmFires(now));
    StepKeeps(s, AlarmFires(now));
    StepKeeps(b, FlightLands);
    match o
    case Committed => StepKeeps(Step(b, FlightLands), FlightReportsOk(now));
    case CommittedButReportedFailed => StepKeeps(Step(b, FlightLands), FlightReportsError(now));
    case Rejected => StepKeeps(b, FlightReportsError(now));
  }

  lemma RoundSpendsSome(s: State, o: Outcome, now: int)
    requires Inv(s) && s.flight.None? && s.alarm.Some? && SomeLive(s.pending)
    ensures var t := Round(s, o, now);
      && (forall q: nat :: Weight(t.pending, q) <= Weight(s.pending, q))
      && (exists q: nat :: 1 <= q <= s.nextSeq && Weight(t.pending, q) < Weight(s.pending, q))
  {
    RoundEnds(s, o, now);
    BatchIsAFlightOrSpent(s);
    var b := AlarmBegin(s);
    if b.flight.Some? {
      AlarmBeginKeeps(s);
      FinishingSpends(b, now);
    }
  }

  /** Every alarm that finds a live row uses up some of the attempts left. */
  lemma RoundSpendsBudget(s: State, o: Outcome, now: int)
    requires Inv(s) && s.flight.None? && s.alarm.Some? && SomeLive(s.pending)
    ensures var t := Round(s, o, now);
      Inv(t) && t.flight.None? && Budget(t.pending, t.nextSeq) < Budget(s.pending, s.nextSeq)
  {
    RoundKeepsInv(s, o, now);
    RoundEnds(s, o, now);
    RoundSpendsSome(s, o, now);
    BudgetIsMonotone(s.pending, Round(s, o, now).pending, s.nextSeq);
  }

  function Drain(s: State, outcomes: seq<Outcome>, now: int): State
    decreases |outcomes|
  {
    if outcomes == [] then s else Drain(Round(s, outcomes[0], now), outcomes[1..], now)
  }

  /** With nothing new arriving, as many alarms as there are attempts left empty the
   *  buffer, however each insert turns out: every row is in D1 or dead-lettered. */
  lemma {:induction false} DrainingTerminates(s: State, outcomes: seq<Outcome>, now: int)
    requires Inv(s) && NoPoison(s) && Armed(s) && s.flight.None?
    requires |outcomes| >= Budget(s.pending, s.nextSeq)
    ensures var t := Drain(s, outcomes, now);
      && !SomeLive(t.pending) && t.log == s.log
      && forall i :: 0 <= i < |t.log| ==>
           || Stored(t.d1, t.others, t.log[i].message)
           || (i + 1 in t.pending && t.pending[i + 1].attempts >= MAX_FLUSH_ATTEMPTS)
    decreases |outcomes|
  {
    if outcomes == [] {
      NoBudgetNoLiveRow(s.pending, s.nextSeq);
    } else {
      var t := Round(s, outcomes[0], now);
      RoundKeepsLog(s, outcomes[0], now);
      if SomeLive(s.pending) {
        RoundSpendsBudget(s, outcomes[0], now);
      } else {
        QuietRound(s, outcomes[0], now);
        NoLiveRowNoBudget(s.pending, s.nextSeq);
      }
      DrainingTerminates(t, outcomes[1..], now);
    }
  }

  lemma FlushStepKeeps(s: State, e: Event)
    requires Inv(s) && NoPoison(s) && Armed(s)
    requires !e.SendMessage? && !e.SeedMessages?
    ensures var t := Step(s, e); Inv(t) && NoPoison(t) && Armed(t) && t.log == s.log
  {
    StepKeeps(s, e);
    StepKeepsArmed(s, e);
  }

  lemma RoundKeepsLog(s: State, o: Outcome, now: int)
    requires Inv(s) && NoPoison(s) && Armed(s)
    ensures var t := Round(s, o, now); Inv(t) && NoPoison(t) && Armed(t) && t.log == s.log
  {
    var b := Step(s, AlarmFires(now));
    FlushStepKeeps(s, AlarmFires(now));
    FlushStepKeeps(b, FlightLands);
    match o
    case Committed => FlushStepKeeps(Step(b, FlightLands), FlightReportsOk(now));
    case CommittedButReportedFailed => FlushStepKeeps(Step(b, FlightLands), FlightReportsError(now));
    case Rejected => FlushStepKeeps(b, FlightReportsError(now));
  }

  lemma NoLiveNoBatch(s: State)
    requires Inv(s) && !SomeLive(s.pending)
    ensures Batch(s) == []
  {
    var rows := Batch(s);
    assert |rows| > 0 ==> rows[0] in rows;
    BatchRows(s);
  }

  // An alarm with nothing to flush does nothing.
  lemma QuietRound(s: State, o: Outcome, now: int)
    requires Inv(s) && s.flight.None? && !SomeLive(s.pending)
    ensures Round(s, o, now) == s.(alarm := Round(s, o, now).alarm)
  {
    NoLiveNoBatch(s);
    assert PoisonSeqs([]) == {} && s.pending - {} == s.pending;
  }

  // ------------------------------------------------------------ D1 grows in order

  ghost predicate NoneDead(s: State) {
    forall q :: q in s.pending ==> s.pending[q].IsLive()
  }

  ghost predicate Consecutive(rows: seq<Message>) {
    rows != [] && forall i :: 0 <= i < |rows| ==> rows[i].seqNo == rows[0].seqNo + i
  }

  ghost predicate HoldsExactly(d1: map<nat, Message>, k: nat) {
    forall q :: q in d1 <==> 1 <= q <= k
  }

  ghost predicate IssuedInOrder(issued: set<seq<Message>>, stored: nat) {
    forall rows: seq<Message> :: rows in issued ==> Consecutive(rows) && rows[0].seqNo <= stored + 1
  }

  /** D1 holds 1..stored, the buffer holds the rest from some row on, and every batch
   *  ever issued is a run of rows starting no later than the end of D1. */
  ghost predicate InOrder(s: State, flushed: nat, stored: nat) {
    && flushed <= stored <= |s.log|
    && IsLiveRange(s.pending, flushed + 1, |s.log|)
    && HoldsExactly(s.d1, stored)
    && IssuedInOrder(s.issued, stored)
    && (s.flight.Some? ==>
          && s.flight.value.rows != []
          && s.flight.value.rows[0].seqNo == flushed + 1
          && (s.flight.value.landed ==> flushed + |s.flight.value.rows| <= stored))
  }

  // The deployment's assumptions, and no row has run out of attempts.
  ghost predicate Smooth(s: State) {
    NoPoison(s) && FreshIds(s) && NoneDead(s)
  }

  lemma {:induction false} GoodRowsAreAll(rows: seq<Message>)
    requires forall m :: m in rows ==> !m.IsPoison()
    ensures GoodRows(rows) == rows
  {
    if rows != [] {
      var front := rows[..|rows| - 1];
      assert forall m :: m in front ==> m in rows;
      GoodRowsAreAll(front);
    }
  }

  // Without poison the batch is the head of the buffer, and all of it is sent.
  lemma BatchIsTheHead(s: State, flushed: nat)
    requires Inv(s) && NoPoison(s) && IsLiveRange(s.pending, flushed + 1, |s.log|)
    ensures var batch := Batch(s);
      && GoodRows(batch) == batch && PoisonSeqs(batch) == {}
      && (batch != [] ==> Consecutive(batch) && batch[0].seqNo == flushed + 1)
  {
    var batch := Batch(s);
    assert batch != [] ==> Consecutive(batch) && batch[0].seqNo == flushed + 1 by {
      SelectFromRange(s.pending, flushed + 1, 1, |s.log|, MAX_PENDING_BATCH);
    }
    NoPoisonInBatch(s);
    GoodRowsAreAll(batch);
  }

  lemma NoPoisonInBatch(s: State)
    requires Inv(s) && NoPoison(s)
    ensures forall m :: m in Batch(s) ==> !m.IsPoison()
    ensures PoisonSeqs(Batch(s)) == {}
  {
    BatchRows(s);
    forall m | m in Batch(s) ensures !m.IsPoison() { assert Logged(s.log, m); }
  }

  lemma AlarmBeginInOrder(s: State, flushed: nat, stored: nat)
    requires Inv(s) && NoPoison(s) && InOrder(s, flushed, stored) && s.flight.None?
    ensures InOrder(AlarmBegin(s), flushed, stored)
  {
    BatchIsTheHead(s, flushed);
    assert s.pending - {} == s.pending;
  }

  // Distinct rows have distinct ids, so an id conflict is a sequence number conflict.
  ghost predicate IdsTell(d1: map<nat, Message>, others: set<string>, rows: seq<Message>) {
    && (forall q, i :: q in d1 && 0 <= i < |rows| && d1[q].draft.id == rows[i].draft.id ==> q == rows[i].seqNo)
    && (forall i, j :: 0 <= i < j < |rows| ==> rows[i].draft.id != rows[j].draft.id)
    && (forall i :: 0 <= i < |rows| ==> rows[i].draft.id !in others)
  }

  lemma InsertExtendsPrefix(d1: map<nat, Message>, others: set<string>, m: Message, stored: nat)
    requires HoldsExactly(d1, stored) && 1 <= m.seqNo <= stored + 1
    requires m.draft.id !in others && forall q :: q in d1 && d1[q].draft.id == m.draft.id ==> q == m.seqNo
    ensures HoldsExactly(Insert(d1, others, m), if m.seqNo <= stored then stored else m.seqNo)
  {
  }

  lemma {:induction false} InsertAllExtendsPrefix(
      d1: map<nat, Message>, others: set<string>, rows: seq<Message>, stored: nat)
    requires Consecutive(rows) && 1 <= rows[0].seqNo <= stored + 1
    requires HoldsExactly(d1, stored) && IdsTell(d1, others, rows)
    ensures var end := rows[0].seqNo + |rows| - 1;
      HoldsExactly(InsertAll(d1, others, rows), if end < stored then stored else end)
    decreases |rows|
  {
    var front, last := rows[..|rows| - 1], rows[|rows| - 1];
    var mid := InsertAll(d1, others, front);
    var end := rows[0].seqNo + |rows| - 1;
    if front != [] {
      InsertAllExtendsPrefix(d1, others, front, stored);
    }
    InsertAllIgnoresConflicts(d1, others, front);
    forall q | q in mid && mid[q].draft.id == last.draft.id ensures q == last.seqNo {
      assert forall i :: 0 <= i < |front| ==> front[i].draft.id != last.draft.id;
    }
    InsertExtendsPrefix(mid, others, last, if end - 1 < stored then stored else end - 1);
  }

  lemma LandingInOrder(s: State, rows: seq<Message>, flushed: nat, stored: nat) returns (grown: nat)
    requires Inv(s) && FreshIds(s) && InOrder(s, flushed, stored) && rows in s.issued
    ensures stored <= grown && rows[0].seqNo + |rows| - 1 <= grown
    ensures InOrder(s.(d1 := InsertAll(s.d1, s.others, rows)), flushed, grown)
  {
    forall i | 0 <= i < |rows| ensures Logged(s.log, rows[i]) { assert rows[i] in rows; }
    assert IdsTell(s.d1, s.others, rows);
    InsertAllExtendsPrefix(s.d1, s.others, rows, stored);
    var end := rows[0].seqNo + |rows| - 1;
    assert rows[|rows| - 1].seqNo == end;
    grown := if end < stored then stored else end;
  }

  lemma FinishOkInOrder(s: State, now: int, flushed: nat, stored: nat)
    requires Inv(s) && InOrder(s, flushed, stored) && s.flight.Some? && s.flight.value.landed
    ensures InOrder(FinishOk(s, now), flushed + |s.flight.value.rows|, stored)
  {
    var rows := s.flight.value.rows;
    forall q: nat ensures q in Seqs(rows) <==> flushed + 1 <= q <= flushed + |rows| {
      if flushed + 1 <= q <= flushed + |rows| {
        var m := rows[q - flushed - 1];
        assert m in rows && m.seqNo == q;
      }
    }
  }

  lemma OthersOnlyGrow(s: State, e: Event)
    ensures s.others <= Step(s, e).others
  {
    if e.SeedMessages? { AllocateAllOnlyAppends(s, e.drafts, e.now); }
  }

  // What is required of a state was already true one step before.
  lemma SmoothBefore(s: State, e: Event)
    requires Inv(s) && Smooth(Step(s, e))
    ensures Smooth(s)
  {
    LogOnlyGrows(s, e);
    OthersOnlyGrow(s, e);
    ShorterLogIsFine(s, Step(s, e));
    forall q | q in s.pending ensures s.pending[q].IsLive() {
      if !s.pending[q].IsLive() { DeadRowsStay(s, e, q); }
    }
  }

  lemma ShorterLogIsFine(s: State, t: State)
    requires s.log <= t.log && s.others <= t.others && NoPoison(t) && FreshIds(t)
    ensures NoPoison(s) && FreshIds(s)
  {
    assert forall i :: 0 <= i < |s.log| ==> s.log[i] == t.log[i];
  }

  // A dead-lettered row is never selected again and never leaves the buffer.
  lemma DeadRowsStay(s: State, e: Event, q: nat)
    requires Inv(s) && q in s.pending && !s.pending[q].IsLive()
    ensures q in Step(s, e).pending && !Step(s, e).pending[q].IsLive()
  {
    match e
    case SeedMessages(drafts, now) => AllocateAllOnlyAppends(s, drafts, now);
    case AlarmFires(now) => BatchRows(s);
    case _ =>
  }

  /** What each event does to a buffered row: it stays as it is, but for one attempt more when a
   *  flush that had it fails, and it leaves exactly when a flush that had it has been reported
   *  to succeed or, having no channel, it is in the batch of an alarm. */
  lemma RowsChangeExactlyByFlushes(s: State, e: Event, q: nat)
    requires Inv(s) && q in s.pending
    ensures var t := Step(s, e); var flown := s.flight.Some? && s.pending[q].message in s.flight.value.rows;
      && (q !in t.pending <==>
            || (e.FlightReportsOk? && flown && s.flight.value.landed)
            || (e.AlarmFires? && s.alarm.Some? && s.flight.None?
                && s.pending[q].message.IsPoison() && s.pending[q].message in Batch(s)))
      && (q in t.pending ==>
            t.pending[q] == PendingWrite(s.pending[q].message,
                              s.pending[q].attempts + (if e.FlightReportsError? && flown then 1 else 0)))
  {
    var m := s.pending[q].message;
    if s.flight.Some? { FlownExactlyWhen(s, q); }
    match e
    case SeedMessages(drafts, now) => AllocateAllOnlyAppends(s, drafts, now);
    case AlarmFires(now) =>
      BatchRows(s);
      assert m in Batch(s) && m.IsPoison() ==> m.seqNo in PoisonSeqs(Batch(s));
    case _ =>
  }

  lemma FlownExactlyWhen(s: State, q: nat)
    requires Inv(s) && s.flight.Some? && q in s.pending
    ensures q in Seqs(s.flight.value.rows) <==> s.pending[q].message in s.flight.value.rows
  {
    var m := s.pending[q].message;
    assert m in s.flight.value.rows ==> m.seqNo in Seqs(s.flight.value.rows);
  }

  lemma RangeGrows(
      pending: map<nat, PendingWrite>, more: map<nat, PendingWrite>, drafts: seq<Draft>, flushed: nat, n: nat, now: int)
    requires IsLiveRange(pending, flushed + 1, n) && flushed <= n && RowsAppend(pending, more, drafts, n, now)
    ensures IsLiveRange(more, flushed + 1, n + |drafts|)
  {
  }

  lemma SeedingInOrder(s: State, drafts: seq<Draft>, now: int, flushed: nat, stored: nat)
    requires Inv(s) && InOrder(s, flushed, stored)
    ensures InOrder(Seed(s, drafts, now), flushed, stored)
  {
    AllocateAllOnlyAppends(s, drafts, now);
    RangeGrows(s.pending, AllocateAll(s, drafts, now).pending, drafts, flushed, s.nextSeq, now);
  }

  lemma SendingInOrder(s: State, e: Event, flushed: nat, stored: nat)
    requires Inv(s) && InOrder(s, flushed, stored) && (e.SendMessage? || e.SeedMessages?)
    ensures InOrder(Step(s, e), flushed, stored)
  {
    if e.SeedMessages? { SeedingInOrder(s, e.drafts, e.now, flushed, stored); }
  }

  lemma FinishErrorInOrder(s: State, now: int, flushed: nat, stored: nat)
    requires Inv(s) && InOrder(s, flushed, stored) && s.flight.Some? && NoneDead(FinishError(s, now))
    ensures InOrder(FinishError(s, now), flushed, stored)
  {
    assert FinishError(s, now).pending.Keys == s.pending.Keys;
  }

  lemma FlightLandsInOrder(s: State, flushed: nat, stored: nat) returns (grown: nat)
    requires Inv(s) && FreshIds(s) && InOrder(s, flushed, stored) && s.flight.Some?
    ensures InOrder(Step(s, FlightLands), flushed, grown)
  {
    grown := LandingInOrder(s, s.flight.value.rows, flushed, stored);
  }

  lemma StepInOrder(s: State, e: Event, flushed: nat, stored: nat) returns (flushed': nat, stored': nat)
    requires Inv(s) && InOrder(s, flushed, stored) && Smooth(s) && Smooth(Step(s, e))
    ensures InOrder(Step(s, e), flushed', stored')
  {
    flushed', stored' := flushed, stored;
    match e {
      case SendMessage(_, _, _) => SendingInOrder(s, e, flushed, stored);
      case SeedMessages(_, _) => SendingInOrder(s, e, flushed, stored);
      case AlarmFires(_) => if s.alarm.Some? && s.flight.None? { AlarmBeginInOrder(s, flushed, stored); }
      case FlightLands => if s.flight.Some? { stored' := FlightLandsInOrder(s, flushed, stored); }
      case StaleBatchLands(rows) =>
        if rows in s.issued { stored' := LandingInOrder(s, rows, flushed, stored); }
      case FlightReportsOk(now) =>
        if s.flight.Some? && s.flight.value.landed {
          FinishOkInOrder(s, now, flushed, stored);
          flushed' := flushed + |s.flight.value.rows|;
        }
      case FlightReportsError(now) => if s.flight.Some? { FinishErrorInOrder(s, now, flushed, stored); }
      case Reload(_) =>
      case OtherRoomStores(_) =>
    }
  }

  lemma {:induction false} RunInOrder(events: seq<Event>) returns (flushed: nat, stored: nat)
    requires Smooth(Run(events))
    ensures InOrder(Run(events), flushed, stored)
    decreases |events|
  {
    if events == [] {
      flushed, stored := 0, 0;
    } else {
      var front, last := events[..|events| - 1], events[|events| - 1];
      RunKeeps(Init, front);
      SmoothBefore(Run(front), last);
      flushed, stored := RunInOrder(front);
      flushed, stored := StepInOrder(Run(front), last, flushed, stored);
    }
  }

  /** While nothing is dead-lettered, D1 holds exactly the rows 1..k for some k: a reader
   *  of D1 alone never sees a gap, however inserts fail, land late or go unreported. */
  lemma D1IsAPrefix(events: seq<Event>)
    requires Smooth(Run(events))
    ensures var s := Run(events);
      exists k: nat :: k <= |s.log| && HoldsExactly(s.d1, k)
  {
    var flushed, stored := RunInOrder(events);
  }
}
