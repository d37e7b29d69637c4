/** Safety of the write-behind log, over every run of `ChatRoomLog.Step`. */
module ChatRoomSafety {
  import opened Wrappers
  import opened ChatRoomLog

  // ------------------------------------------------- what the queries compute

  lemma {:induction false} SelectBatchIsSound(pending: map<nat, PendingWrite>, from: nat, upto: nat, limit: nat)
    requires forall q :: q in pending ==> pending[q].message.seqNo == q
    ensures var r := SelectBatch(pending, from, upto, limit);
      && |r| <= limit
      && forall i :: 0 <= i < |r| ==>
           var q := r[i].seqNo;
           from <= q <= upto && q in pending && pending[q].IsLive() && pending[q].message == r[i]
    decreases upto + 1 - from
  {
    if from > upto || limit == 0 {
    } else if from in pending && pending[from].IsLive() {
      SelectBatchIsSound(pending, from + 1, upto, limit - 1);
    } else {
      SelectBatchIsSound(pending, from + 1, upto, limit);
    }
  }

  ghost predicate Ascending(rows: seq<Message>) {
    forall i, j :: 0 <= i < j < |rows| ==> rows[i].seqNo < rows[j].seqNo
  }

  lemma {:induction false} SelectBatchAscends(pending: map<nat, PendingWrite>, from: nat, upto: nat, limit: nat)
    requires forall q :: q in pending ==> pending[q].message.seqNo == q
    ensures Ascending(SelectBatch(pending, from, upto, limit))
    decreases upto + 1 - from
  {
    if from > upto || limit == 0 {
    } else if from in pending && pending[from].IsLive() {
      SelectBatchAscends(pending, from + 1, upto, limit - 1);
      SelectBatchIsSound(pending, from + 1, upto, limit - 1);
      assert Ascending([pending[from].message] + SelectBatch(pending, from + 1, upto, limit - 1));
    } else {
      SelectBatchAscends(pending, from + 1, upto, limit);
    }
  }

  // A live row is left out only when the batch is full of lower sequence numbers.
  lemma {:induction false} SelectBatchTakesTheLowest(
      pending: map<nat, PendingWrite>, from: nat, upto: nat, limit: nat, q: nat)
    requires forall q :: q in pending ==> pending[q].message.seqNo == q
    requires from <= q <= upto && q in pending && pending[q].IsLive()
    ensures var r := SelectBatch(pending, from, upto, limit);
      pending[q].message in r || (|r| == limit && forall i :: 0 <= i < |r| ==> r[i].seqNo < q)
    decreases upto + 1 - from
  {
    if limit == 0 {
    } else if from in pending && pending[from].IsLive() {
      var first, rest := pending[from].message, SelectBatch(pending, from + 1, upto, limit - 1);
      assert SelectBatch(pending, from, upto, limit) == [first] + rest;
      if from == q {
        assert ([first] + rest)[0] == pending[q].message;
      } else {
        SelectBatchTakesTheLowest(pending, from + 1, upto, limit - 1, q);
      }
    } else {
      SelectBatchTakesTheLowest(pending, from + 1, upto, limit, q);
      assert SelectBatch(pending, from, upto, limit) == SelectBatch(pending, from + 1, upto, limit);
    }
  }

  lemma {:induction false} GoodRowsAreTheOthers(rows: seq<Message>)
    ensures forall m :: m in GoodRows(rows) <==> m in rows && !m.IsPoison()
  {
    if rows != [] {
      var front := rows[..|rows| - 1];
      GoodRowsAreTheOthers(front);
      assert rows == front + [rows[|rows| - 1]];
    }
  }

  lemma {:induction false} InsertAllIgnoresConflicts(d1: map<nat, Message>, others: set<string>, rows: seq<Message>)
    ensures var r := InsertAll(d1, others, rows);
      && (forall q :: q in d1 ==> q in r && r[q] == d1[q])
      && (forall q :: q in r && q !in d1 ==> r[q] in rows && r[q].seqNo == q)
      && (forall m :: m in rows ==> m.seqNo in r || m.draft.id in Ids(r) || m.draft.id in others)
  {
    if rows != [] {
      var front, last := rows[..|rows| - 1], rows[|rows| - 1];
      InsertAllIgnoresConflicts(d1, others, front);
      var mid, r := InsertAll(d1, others, front), InsertAll(d1, others, rows);
      assert rows == front + [last];
      assert forall id :: id in Ids(mid) ==> id in Ids(r) by {
        forall id | id in Ids(mid) ensures id in Ids(r) {
          var q :| q in mid && mid[q].draft.id == id;
          assert r[q] == mid[q];
        }
      }
    }
  }

  // ---------------------------------------------------- each step keeps the invariant

  // The state after a row and its key, if it has one, are recorded.
  function Record(s: State, draft: Draft, now: int, key: Option<IdemKey>): State {
    var t := Allocate(s, draft, now, key);
    if key.Some? then t.(idem := t.idem[key.value := t.nextSeq]) else t
  }

  lemma RecordKeepsRows(s: State, draft: Draft, now: int, key: Option<IdemKey>)
    requires CountersAgree(s) && RowsComeFromLog(s) && FlightIsBuffered(s)
    ensures var t := Record(s, draft, now, key);
      CountersAgree(t) && RowsComeFromLog(t) && FlightIsBuffered(t)
  {
    var t := Record(s, draft, now, key);
    assert forall m :: Logged(s.log, m) ==> Logged(t.log, m);
    assert t.issued == s.issued && t.flight == s.flight && t.d1 == s.d1;
    assert forall q :: q in s.pending ==> q in t.pending && t.pending[q] == s.pending[q];
  }

  lemma RecordKeepsNothingLost(s: State, draft: Draft, now: int, key: Option<IdemKey>)
    requires CountersAgree(s) && NothingLost(s)
    ensures NothingLost(Record(s, draft, now, key))
  {
    var t := Record(s, draft, now, key);
    forall i | 0 <= i < |t.log| && !t.log[i].message.IsPoison()
      ensures i + 1 in t.pending || Stored(t.d1, t.others, t.log[i].message)
    {
      if i < |s.log| { assert t.log[i] == s.log[i]; }
    }
  }

  lemma RecordKeepsKeys(s: State, draft: Draft, now: int, key: Option<IdemKey>)
    requires CountersAgree(s) && KeysAgree(s)
    requires key.Some? ==> key.value !in s.idem
    ensures KeysAgree(Record(s, draft, now, key))
  {
  }

  lemma RecordKeeps(s: State, draft: Draft, now: int, key: Option<IdemKey>)
    requires Inv(s)
    requires key.Some? ==> key.value !in s.idem
    ensures Inv(Record(s, draft, now, key))
  {
    RecordKeepsRows(s, draft, now, key);
    RecordKeepsNothingLost(s, draft, now, key);
    RecordKeepsKeys(s, draft, now, key);
  }

  lemma {:induction false} AllocateAllKeeps(s: State, drafts: seq<Draft>, now: int)
    requires Inv(s)
    ensures Inv(AllocateAll(s, drafts, now))
    decreases |drafts|
  {
    if drafts != [] {
      var n := |drafts| - 1;
      AllocateAllKeeps(s, drafts[..n], now);
      RecordKeeps(AllocateAll(s, drafts[..n], now), drafts[n], now, None);
    }
  }

  lemma BatchRows(s: State)
    requires RowsComeFromLog(s)
    ensures forall m :: m in Batch(s) ==>
              m.seqNo in s.pending && s.pending[m.seqNo].IsLive() && s.pending[m.seqNo].message == m
    ensures forall m :: m in GoodRows(Batch(s)) <==> m in Batch(s) && !m.IsPoison()
  {
    SelectBatchIsSound(s.pending, 1, s.nextSeq, MAX_PENDING_BATCH);
    GoodRowsAreTheOthers(Batch(s));
  }

  // Exactly the poison rows of the batch leave the buffer.
  lemma AlarmBeginDropsPoison(s: State)
    requires RowsComeFromLog(s)
    ensures forall q :: q in s.pending && q !in AlarmBegin(s).pending ==>
              s.pending[q].message.IsPoison() && s.pending[q].message in Batch(s)
    ensures forall m :: m in Batch(s) && m.IsPoison() ==> m.seqNo !in AlarmBegin(s).pending
    ensures forall m :: m in GoodRows(Batch(s)) ==>
              m.seqNo in AlarmBegin(s).pending && AlarmBegin(s).pending[m.seqNo] == s.pending[m.seqNo]
  {
    BatchRows(s);
    var batch, t := Batch(s), AlarmBegin(s);
    forall q | q in s.pending && q !in t.pending
      ensures s.pending[q].message.IsPoison() && s.pending[q].message in batch
    {
      var m :| m in batch && m.IsPoison() && m.seqNo == q;
    }
  }

  lemma AlarmBeginKeepsRows(s: State)
    requires RowsComeFromLog(s) && s.flight.None?
    ensures RowsComeFromLog(AlarmBegin(s)) && FlightIsBuffered(AlarmBegin(s))
  {
    BatchRows(s);
    AlarmBeginDropsPoison(s);
    var t := AlarmBegin(s);
  }

  lemma AlarmBeginLosesNothing(s: State)
    requires CountersAgree(s) && RowsComeFromLog(s) && NothingLost(s)
    ensures NothingLost(AlarmBegin(s))
  {
    AlarmBeginDropsPoison(s);
    var t := AlarmBegin(s);
    forall i | 0 <= i < |t.log| && !t.log[i].message.IsPoison()
      ensures i + 1 in t.pending || Stored(t.d1, t.others, t.log[i].message)
    {
      if i + 1 in s.pending { assert Logged(s.log, s.pending[i + 1].message); }
    }
  }

  lemma AlarmBeginKeeps(s: State)
    requires Inv(s) && s.flight.None?
    ensures Inv(AlarmBegin(s))
  {
    AlarmBeginKeepsRows(s);
    AlarmBeginLosesNothing(s);
  }

  // A batch lands: now, or after the handler that issued it is gone.
  lemma LandingKeeps(s: State, rows: seq<Message>)
    requires Inv(s) && rows in s.issued
    ensures var t := s.(d1 := InsertAll(s.d1, s.others, rows));
      Inv(t) && forall m :: m in rows ==> Stored(t.d1, t.others, m)
  {
    InsertAllIgnoresConflicts(s.d1, s.others, rows);
    var t := s.(d1 := InsertAll(s.d1, s.others, rows));
    forall m | Stored(s.d1, s.others, m) ensures Stored(t.d1, t.others, m) {
      if m.draft.id in Ids(s.d1) {
        var q :| q in s.d1 && s.d1[q].draft.id == m.draft.id;
        assert t.d1[q] == s.d1[q];
      }
    }
  }

  lemma FlightLandsKeeps(s: State)
    requires Inv(s) && s.flight.Some?
    ensures Inv(Step(s, FlightLands))
  {
    var rows := s.flight.value.rows;
    LandingKeeps(s, rows);
    var u, t := s.(d1 := InsertAll(s.d1, s.others, rows)), Step(s, FlightLands);
    assert t == u.(flight := Some(u.flight.value.(landed := true)));
  }

  lemma RestartKeeps(s: State, now: int)
    requires Inv(s)
    ensures Inv(Restart(s, now))
  {
    var t := Restart(s, now);
  }

  /** A reload loses nothing but the handler that was under way: its reports are not heard any
   *  more, though its batch may still land. */
  lemma ReloadLosesOnlyTheHandler(s: State, now: int, later: int)
    requires Inv(s)
    ensures var t := Step(s, Reload(now));
      && t == s.(flight := None, alarm := t.alarm)
      && (s.flight.Some? ==> t.alarm.Some? && t.alarm.value <= now && s.flight.value.rows in t.issued)
      && Step(t, FlightReportsOk(later)) == t && Step(t, FlightReportsError(later)) == t
  {
  }

  lemma SeedKeeps(s: State, drafts: seq<Draft>, now: int)
    requires Inv(s)
    ensures Inv(Seed(s, drafts, now))
  {
    AllocateAllKeeps(s, drafts, now);
    var t := AllocateAll(s, drafts, now);
    FrameAlarm(t, Arm(t.alarm, now + ALARM_DELAY_MS));
  }

  lemma FinishOkKeeps(s: State, now: int)
    requires Inv(s) && s.flight.Some? && s.flight.value.landed
    ensures Inv(FinishOk(s, now))
  {
    var t := FinishOk(s, now);
    forall i | 0 <= i < |t.log| && !t.log[i].message.IsPoison()
      ensures i + 1 in t.pending || Stored(t.d1, t.others, t.log[i].message)
    {
      if i + 1 in s.pending && i + 1 !in t.pending {
        var m :| m in s.flight.value.rows && m.seqNo == i + 1;
        assert s.pending[i + 1].message == m;
      }
    }
  }

  lemma FinishErrorKeeps(s: State, now: int)
    requires Inv(s) && s.flight.Some?
    ensures Inv(FinishError(s, now))
  {
    var t := FinishError(s, now);
    assert t.pending.Keys == s.pending.Keys;
  }

  lemma OtherRoomKeeps(s: State, id: string)
    requires Inv(s)
    ensures Inv(Step(s, OtherRoomStores(id)))
  {
    var t := Step(s, OtherRoomStores(id));
    assert forall m :: Stored(s.d1, s.others, m) ==> Stored(t.d1, t.others, m);
  }

  lemma SendKeeps(s: State, key: string, draft: Draft, now: int)
    requires Inv(s)
    ensures Inv(Send(s, key, draft, now).0)
  {
    var k := (draft.senderId, key);
    if k !in s.idem {
      RecordKeeps(s, draft, now, Some(k));
      var t := Record(s, draft, now, Some(k));
      FrameAlarm(t, Arm(t.alarm, now + ALARM_DELAY_MS));
    }
  }

  lemma FrameAlarm(s: State, alarm: Option<int>)
    ensures Inv(s) <==> Inv(s.(alarm := alarm))
  {
    var t := s.(alarm := alarm);
  }

  lemma StepKeeps(s: State, e: Event)
    requires Inv(s)
    ensures Inv(Step(s, e))
  {
    match e
    case SendMessage(key, draft, now) => SendKeeps(s, key, draft, now);
    case SeedMessages(drafts, now) => SeedKeeps(s, drafts, now);
    case AlarmFires(now) => if s.alarm.Some? && s.flight.None? { AlarmBeginKeeps(s); }
    case FlightLands => if s.flight.Some? { FlightLandsKeeps(s); }
    case StaleBatchLands(rows) => if rows in s.issued { LandingKeeps(s, rows); }
    case FlightReportsOk(now) => if s.flight.Some? && s.flight.value.landed { FinishOkKeeps(s, now); }
    case FlightReportsError(now) => if s.flight.Some? { FinishErrorKeeps(s, now); }
    case Reload(now) => RestartKeeps(s, now);
    case OtherRoomStores(id) => OtherRoomKeeps(s, id);
  }

  lemma {:induction false} RunKeeps(s: State, events: seq<Event>)
    requires Inv(s)
    ensures Inv(RunFrom(s, events))
    decreases |events|
  {
    if events != [] {
      var front := events[..|events| - 1];
      RunKeeps(s, front);
      StepKeeps(RunFrom(s, front), events[|events| - 1]);
    }
  }

  // ------------------------------------------------------------------ theorems

  // The assumptions a deployment makes: rows carry their channel and a fresh id.
  ghost predicate AllHaveChannels(log: seq<Entry>) {
    forall i :: 0 <= i < |log| ==> !log[i].message.IsPoison()
  }

  ghost predicate NoPoison(s: State) { AllHaveChannels(s.log) }

  ghost predicate FreshIds(s: State) {
    && (forall i, j :: 0 <= i < j < |s.log| ==> s.log[i].message.draft.id != s.log[j].message.draft.id)
    && (forall i :: 0 <= i < |s.log| ==> s.log[i].message.draft.id !in s.others)
  }

  // The row allocated under a sequence number can be read back, unchanged.
  ghost predicate Held(s: State, q: nat) {
    && 1 <= q <= |s.log|
    && var m := s.log[q - 1].message;
       || (q in s.pending && s.pending[q].message == m)
       || (q in s.d1 && s.d1[q] == m)
  }

  /** No acknowledged message is lost or altered, whatever the run: the row that was
   *  broadcast under a sequence number is buffered or in D1, unless it never had a
   *  channel or its id is already the id of another stored row. */
  lemma NoAcknowledgedMessageIsLost(events: seq<Event>, q: nat)
    requires var s := Run(events); 1 <= q <= |s.log|
    ensures var s := Run(events); var m := s.log[q - 1].message;
      && m.seqNo == q
      && (Held(s, q) || m.IsPoison() || m.draft.id in s.others
          || exists p :: p in s.d1 && p != q && s.d1[p].draft.id == m.draft.id)
    ensures var s := Run(events); NoPoison(s) && FreshIds(s) ==> Held(s, q)
  {
    RunKeeps(Init, events);
    var s := Run(events);
    var m := s.log[q - 1].message;
    if !m.IsPoison() && q !in s.pending && q !in s.d1 && m.draft.id !in s.others {
      var p := OtherRowWithTheId(s, q);
    }
  }

  lemma OtherRowWithTheId(s: State, q: nat) returns (p: nat)
    requires Inv(s) && 1 <= q <= |s.log| && q !in s.pending && q !in s.d1
    requires var m := s.log[q - 1].message; !m.IsPoison() && m.draft.id !in s.others
    ensures p in s.d1 && p != q && s.d1[p].draft.id == s.log[q - 1].message.draft.id
    ensures 1 <= p <= |s.log| && s.log[p - 1].message.draft.id == s.log[q - 1].message.draft.id
  {
    var m := s.log[q - 1].message;
    assert Stored(s.d1, s.others, m);
    p :| p in s.d1 && s.d1[p].draft.id == m.draft.id;
    assert Logged(s.log, s.d1[p]);
  }

  const Plain := Draft("id", "channel", "sender", System, "hello", None)

  function TakenRun(): seq<Event> {
    [OtherRoomStores("id"), SendMessage("key", Plain, 0), AlarmFires(250), FlightLands, FlightReportsOk(300)]
  }

  /** The second exception is real: a row whose id another room has stored is broadcast, flushed
   *  and dropped from the buffer, and is not in D1. */
  lemma TakenIdIsNotStored()
    ensures var s := Run(TakenRun()); |s.log| == 1 && s.log[0].message.draft == Plain && !Held(s, 1)
  {
    var events := TakenRun();
    ReachOneLanded(events);
    OneIsDropped();
    AfterSnoc(events, 4, OneFlying(true), FinishOk(OneFlying(true), 300));
    assert events[..5] == events;
  }

  lemma ReachOneBuffered(events: seq<Event>)
    requires |events| > 2 && events[0] == OtherRoomStores("id") && events[1] == SendMessage("key", Plain, 0)
    ensures Run(events[..2]) == OneBuffered()
  {
    var s1 := Init.(others := {"id"});
    AfterSnoc(events, 0, Init, s1);
    AfterSnoc(events, 1, s1, OneBuffered());
  }

  lemma ReachOneLanded(events: seq<Event>)
    requires |events| > 4 && events[0] == OtherRoomStores("id") && events[1] == SendMessage("key", Plain, 0)
    requires events[2] == AlarmFires(250) && events[3] == FlightLands
    ensures Run(events[..4]) == OneFlying(true)
  {
    ReachOneBuffered(events);
    OneTakesOff();
    AfterSnoc(events, 2, OneBuffered(), OneFlying(false));
    OneLands();
    AfterSnoc(events, 3, OneFlying(false), OneFlying(true));
  }

  // One row, whose id another room has stored.
  function OneBuffered(): State {
    Send(Init.(others := {"id"}), "key", Plain, 0).0
  }

  function OneFlying(landed: bool): State {
    var m := Message(Plain, 1, 0, 0);
    OneBuffered().(alarm := None, flight := Some(Flight([m], landed)), issued := {[m]})
  }

  lemma OneTakesOff()
    ensures Step(OneBuffered(), AlarmFires(250)) == OneFlying(false)
  {
    var s, m := OneBuffered(), Message(Plain, 1, 0, 0);
    OneRowBatch(s, m);
    assert s.pending - {} == s.pending;
  }

  lemma OneLands()
    ensures Step(OneFlying(false), FlightLands) == OneFlying(true)
  {
    var m := Message(Plain, 1, 0, 0);
    assert [m][..0] == [];
    assert InsertAll(map[], {"id"}, [m]) == Insert(map[], {"id"}, m) == map[];
  }

  lemma OneIsDropped()
    ensures FinishOk(OneFlying(true), 300).pending == map[]
  {
    var m := Message(Plain, 1, 0, 0);
    assert m in [m] && 1 in Seqs([m]);
  }

  lemma AfterSnoc(events: seq<Event>, n: nat, before: State, after: State)
    requires n < |events| && Run(events[..n]) == before && Step(before, events[n]) == after
    ensures Run(events[..n + 1]) == after
  {
    assert events[..n + 1][..n] == events[..n];
  }

  lemma OneRowBatch(s: State, m: Message)
    requires s.nextSeq == 1 && s.pending == map[1 := PendingWrite(m, 0)] && !m.IsPoison()
    ensures Batch(s) == [m] && GoodRows([m]) == [m] && PoisonSeqs([m]) == {}
  {
    OneSelected(s.pending, m, MAX_PENDING_BATCH);
    OneGoodRow(m);
  }

  lemma OneSelected(pending: map<nat, PendingWrite>, m: Message, limit: nat)
    requires 1 in pending && pending[1] == PendingWrite(m, 0) && limit > 0
    ensures SelectBatch(pending, 1, 1, limit) == [m]
  {
    assert SelectBatch(pending, 2, 1, limit - 1) == [];
  }

  lemma OneGoodRow(m: Message)
    requires !m.IsPoison()
    ensures GoodRows([m]) == [m] && PoisonSeqs([m]) == {}
  {
    assert [m][..0] == [] && GoodRows([m]) == GoodRows([]) + [m];
  }

  // A batch once issued may land at any later time.
  lemma IssuedBatchesMayAlwaysLand(s: State, e: Event, rows: seq<Message>)
    ensures rows in s.issued ==> rows in Step(s, e).issued
    ensures var t := Step(s, e);
      e.AlarmFires? && s.flight.None? && t.flight.Some? ==> t.flight.value.rows in t.issued
  {
    match e
    case SeedMessages(drafts, now) => AllocateAllOnlyAppends(s, drafts, now);
    case _ =>
  }

  // Nothing but a flush writes D1, and a flush never overwrites or removes a row.
  lemma D1OnlyGrows(s: State, e: Event, q: nat)
    requires q in s.d1
    ensures q in Step(s, e).d1 && Step(s, e).d1[q] == s.d1[q]
  {
    match e
    case FlightLands =>
      if s.flight.Some? { InsertAllIgnoresConflicts(s.d1, s.others, s.flight.value.rows); }
    case StaleBatchLands(rows) => InsertAllIgnoresConflicts(s.d1, s.others, rows);
    case SeedMessages(drafts, now) => AllocateAllOnlyAppends(s, drafts, now);
    case _ =>
  }

  // The log grows by one row for each draft, with consecutive numbers.
  ghost predicate LogAppends(log: seq<Entry>, longer: seq<Entry>, drafts: seq<Draft>, n: nat, now: int) {
    && log <= longer && |longer| == |log| + |drafts|
    && forall i :: 0 <= i < |drafts| ==>
         longer[|log| + i] == Entry(Message(drafts[i], n + i + 1, now, now), None)
  }

  // The buffer keeps what it has up to `n` and gets the rows after it.
  ghost predicate RowsAppend(
      pending: map<nat, PendingWrite>, more: map<nat, PendingWrite>, drafts: seq<Draft>, n: nat, now: int)
  {
    && (forall q :: q in pending && q <= n ==> q in more && more[q] == pending[q])
    && (forall q :: q in more && q !in pending ==>
          n < q <= n + |drafts| && more[q] == PendingWrite(Message(drafts[q - n - 1], q, now, now), 0))
    && (forall q :: n < q <= n + |drafts| ==> q in more)
  }

  lemma LogAppendsSnoc(log: seq<Entry>, longer: seq<Entry>, drafts: seq<Draft>, n: nat, now: int)
    requires drafts != [] && LogAppends(log, longer, drafts[..|drafts| - 1], n, now)
    ensures var row := Message(drafts[|drafts| - 1], n + |drafts|, now, now);
      LogAppends(log, longer + [Entry(row, None)], drafts, n, now)
  {
    assert forall i :: 0 <= i < |drafts| - 1 ==> drafts[..|drafts| - 1][i] == drafts[i];
  }

  lemma RowsAppendSnoc(
      pending: map<nat, PendingWrite>, more: map<nat, PendingWrite>, drafts: seq<Draft>, n: nat, now: int)
    requires drafts != [] && RowsAppend(pending, more, drafts[..|drafts| - 1], n, now)
    ensures var q := n + |drafts|;
      RowsAppend(pending, more[q := PendingWrite(Message(drafts[|drafts| - 1], q, now, now), 0)], drafts, n, now)
  {
    assert forall i :: 0 <= i < |drafts| - 1 ==> drafts[..|drafts| - 1][i] == drafts[i];
  }

  // Nothing but the counters, the buffer and the log changes.
  ghost predicate Framed(s: State, t: State, n: nat) {
    && t == s.(nextSeq := t.nextSeq, storedSeq := t.storedSeq, pending := t.pending, log := t.log)
    && t.nextSeq == s.nextSeq + n
  }

  lemma {:induction false} AllocateAllFrames(s: State, drafts: seq<Draft>, now: int)
    ensures Framed(s, AllocateAll(s, drafts, now), |drafts|)
    decreases |drafts|
  {
    if drafts != [] { AllocateAllFrames(s, drafts[..|drafts| - 1], now); }
  }

  lemma {:induction false} AllocateAllLogs(s: State, drafts: seq<Draft>, now: int)
    ensures LogAppends(s.log, AllocateAll(s, drafts, now).log, drafts, s.nextSeq, now)
    decreases |drafts|
  {
    if drafts != [] {
      var t := AllocateAll(s, drafts[..|drafts| - 1], now);
      AllocateAllLogs(s, drafts[..|drafts| - 1], now);
      AllocateAllFrames(s, drafts[..|drafts| - 1], now);
      LogAppendsSnoc(s.log, t.log, drafts, s.nextSeq, now);
    }
  }

  lemma {:induction false} AllocateAllBuffers(s: State, drafts: seq<Draft>, now: int)
    ensures RowsAppend(s.pending, AllocateAll(s, drafts, now).pending, drafts, s.nextSeq, now)
    decreases |drafts|
  {
    if drafts != [] {
      var t := AllocateAll(s, drafts[..|drafts| - 1], now);
      AllocateAllBuffers(s, drafts[..|drafts| - 1], now);
      AllocateAllFrames(s, drafts[..|drafts| - 1], now);
      RowsAppendSnoc(s.pending, t.pending, drafts, s.nextSeq, now);
    }
  }

  lemma {:induction false} AllocateAllOnlyAppends(s: State, drafts: seq<Draft>, now: int)
    ensures var t := AllocateAll(s, drafts, now);
      && Framed(s, t, |drafts|)
      && LogAppends(s.log, t.log, drafts, s.nextSeq, now)
      && RowsAppend(s.pending, t.pending, drafts, s.nextSeq, now)
  {
    AllocateAllFrames(s, drafts, now);
    AllocateAllLogs(s, drafts, now);
    AllocateAllBuffers(s, drafts, now);
  }
}
