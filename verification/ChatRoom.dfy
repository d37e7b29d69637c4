/** The chat room object: its fields, its storage tables and its handlers, each proved
 * to take the step of `ChatRoomLog` that the theorems are about. */
module ChatRoomObject {
  import opened Wrappers
  import opened ChatRoomLog
  import opened ChatRoomSafety
  import opened ChatRoomAlarm

  lemma PoisonSeqsSnoc(rows: seq<Message>, m: Message)
    ensures PoisonSeqs(rows + [m]) == PoisonSeqs(rows) + (if m.IsPoison() then {m.seqNo} else {})
    ensures Seqs(rows + [m]) == Seqs(rows) + {m.seqNo}
  {
    var all := rows + [m];
    forall r | r in rows ensures r in all {
      var i :| 0 <= i < |rows| && rows[i] == r;
      assert all[i] == r;
    }
    assert all[|rows|] == m;
  }

  class ChatRoom {
    // In memory.
    var nextSeq: nat
    // The object's own storage: meta('next_seq'), idem, pending_writes and the alarm slot.
    var storedSeq: nat
    var idem: map<IdemKey, nat>
    var pending: map<nat, PendingWrite>
    var alarm: Option<int>
    // Outside the object: the insert in flight, D1, and what has happened so far.
    ghost var flight: Option<Flight>
    ghost var d1: map<nat, Message>
    ghost var others: set<string>
    ghost var issued: set<seq<Message>>
    ghost var log: seq<Entry>

    ghost function View(): State
      reads this
    {
      State(nextSeq, storedSeq, idem, pending, alarm, flight, d1, others, issued, log)
    }

    ghost predicate Valid()
      reads this
    {
      Inv(View())
    }

    constructor ()
      ensures Valid() && View() == Init
    {
      nextSeq, storedSeq, idem, pending, alarm := 0, 0, map[], map[], None;
      flight, d1, others, issued, log := None, map[], {}, {}, [];
    }

    // A new instance over the same storage; the platform runs an interrupted alarm again at `now`.
    method Reload(interrupted: bool, now: int)
      requires Valid() && interrupted == flight.Some?
      modifies this
      ensures Valid() && View() == Restart(old(View()), now)
    {
      RestartKeeps(View(), now);
      nextSeq := storedSeq;
      if interrupted {
        alarm := Arm(alarm, now);
      }
      flight := None;
    }

    method ScheduleFlush(now: int)
      modifies this`alarm
      ensures alarm == Arm(old(alarm), now + ALARM_DELAY_MS)
      ensures Hastened(old(alarm), alarm, now + ALARM_DELAY_MS)
    {
      var target := now + ALARM_DELAY_MS;
      if alarm.None? || alarm.value > target {
        alarm := Some(target);
      }
    }

    method ScheduleAlarm(at: int)
      modifies this`alarm
      ensures alarm == Arm(old(alarm), at)
      ensures Hastened(old(alarm), alarm, at)
    {
      if alarm.Some? && alarm.value <= at {
        return;
      }
      alarm := Some(at);
    }

    // Writes the counter to storage first, then allocates in memory, then buffers the row.
    method BufferRow(draft: Draft, now: int, ghost key: Option<IdemKey>) returns (row: Message)
      modifies this`nextSeq, this`storedSeq, this`pending, this`log
      ensures View() == Allocate(old(View()), draft, now, key)
      ensures row == Message(draft, nextSeq, now, now)
    {
      var n := nextSeq + 1;
      storedSeq := n;
      nextSeq := n;
      row := Message(draft, n, now, now);
      pending := pending[n := PendingWrite(row, 0)];
      log := log + [Entry(row, key)];
    }

    // The core both send handlers share, from the duplicate check to the armed alarm.
    method HandleSend(key: string, draft: Draft, now: int) returns (reply: Reply)
      requires Valid()
      modifies this
      ensures Valid() && (View(), reply) == Send(old(View()), key, draft, now)
    {
      SendKeeps(View(), key, draft, now);
      var k := (draft.senderId, key);
      if k in idem {
        return Deduped(idem[k]);
      }
      var row := BufferRow(draft, now, Some(k));
      idem := idem[k := row.seqNo];
      ScheduleFlush(now);
      reply := Accepted(row.seqNo);
    }

    method HandleSeed(drafts: seq<Draft>, now: int) returns (rows: seq<Message>)
      requires Valid()
      modifies this
      ensures Valid() && View() == Seed(old(View()), drafts, now)
      ensures |rows| == |drafts|
      ensures forall i :: 0 <= i < |rows| ==> rows[i] == Message(drafts[i], old(nextSeq) + i + 1, now, now)
    {
      SeedKeeps(View(), drafts, now);
      rows := [];
      for i := 0 to |drafts|
        invariant View() == AllocateAll(old(View()), drafts[..i], now)
        invariant nextSeq == old(nextSeq) + i && |rows| == i
        invariant forall j :: 0 <= j < i ==> rows[j] == Message(drafts[j], old(nextSeq) + j + 1, now, now)
      {
        assert drafts[..i + 1][..i] == drafts[..i];
        var row := BufferRow(drafts[i], now, None);
        rows := rows + [row];
      }
      assert drafts[..|drafts|] == drafts;
      ScheduleFlush(now);
    }

    // SELECT seq, message_json FROM pending_writes WHERE attempts < 5 ORDER BY seq LIMIT 50.
    method SelectLive() returns (rows: seq<Message>)
      ensures rows == Batch(View())
    {
      rows := [];
      var q := 1;
      while q <= nextSeq && |rows| < MAX_PENDING_BATCH
        invariant 1 <= q <= nextSeq + 1 && |rows| <= MAX_PENDING_BATCH
        invariant rows + SelectBatch(pending, q, nextSeq, MAX_PENDING_BATCH - |rows|) == Batch(View())
        decreases nextSeq + 1 - q
      {
        if q in pending && pending[q].IsLive() {
          rows := rows + [pending[q].message];
        }
        q := q + 1;
      }
    }

    static method SplitPoison(rows: seq<Message>) returns (goodRows: seq<Message>, poisonSeqs: seq<nat>)
      ensures goodRows == GoodRows(rows)
      ensures (set q | q in poisonSeqs) == PoisonSeqs(rows)
    {
      goodRows, poisonSeqs := [], [];
      for i := 0 to |rows|
        invariant goodRows == GoodRows(rows[..i])
        invariant (set q | q in poisonSeqs) == PoisonSeqs(rows[..i])
      {
        assert rows[..i + 1][..i] == rows[..i] && rows[..i + 1] == rows[..i] + [rows[i]];
        PoisonSeqsSnoc(rows[..i], rows[i]);
        if rows[i].IsPoison() {
          poisonSeqs := poisonSeqs + [rows[i].seqNo];
        } else {
          goodRows := goodRows + [rows[i]];
        }
      }
      assert rows[..|rows|] == rows;
    }

    // DELETE FROM pending_writes WHERE seq = ?, one sequence number at a time.
    method DeleteEach(seqs: seq<nat>)
      modifies this`pending
      ensures pending == old(pending) - (set q | q in seqs)
    {
      for i := 0 to |seqs|
        invariant pending == old(pending) - (set q | q in seqs[..i])
      {
        assert seqs[..i + 1] == seqs[..i] + [seqs[i]];
        pending := pending - {seqs[i]};
      }
      assert seqs[..|seqs|] == seqs;
    }

    // The alarm handler up to the D1 insert; `goodRows` is what it hands to D1.
    method BeginAlarm() returns (goodRows: seq<Message>)
      requires Valid() && alarm.Some? && flight.None?
      modifies this
      ensures Valid() && View() == AlarmBegin(old(View()))
      ensures goodRows == GoodRows(Batch(old(View())))
    {
      AlarmBeginKeeps(View());
      goodRows := TakeBatch();
    }

    method TakeBatch() returns (goodRows: seq<Message>)
      modifies this`alarm, this`pending, this`flight, this`issued
      ensures View() == AlarmBegin(old(View()))
      ensures goodRows == GoodRows(Batch(old(View())))
    {
      alarm := None;
      var rows := SelectLive();
      var poisonSeqs;
      goodRows, poisonSeqs := SplitPoison(rows);
      DeleteEach(poisonSeqs);
      if goodRows != [] {
        flight := Some(Flight(goodRows, false));
        issued := issued + {goodRows};
      }
    }

    // The rest of the handler, when the insert was reported to succeed.
    method FlushSucceeded(goodRows: seq<Message>, now: int)
      requires Valid() && flight.Some? && flight.value.landed && flight.value.rows == goodRows
      modifies this
      ensures Valid() && View() == FinishOk(old(View()), now)
    {
      FinishOkKeeps(View(), now);
      pending := pending - Seqs(goodRows);
      flight := None;
      if SomeLive(pending) {
        ScheduleAlarm(now + ALARM_DELAY_MS);
      }
    }

    // The rest of the handler, when the insert was reported to fail.
    method FlushFailed(goodRows: seq<Message>, now: int)
      requires Valid() && flight.Some? && flight.value.rows == goodRows
      modifies this
      ensures Valid() && View() == FinishError(old(View()), now)
    {
      FinishErrorKeeps(View(), now);
      var failed := Seqs(goodRows);
      pending := map q | q in pending ::
        if q in failed then pending[q].(attempts := pending[q].attempts + 1) else pending[q];
      flight := None;
      ScheduleAlarm(now + ALARM_BACKOFF_MS);
    }
  }
}
