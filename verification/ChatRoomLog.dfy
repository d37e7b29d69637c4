/** The write-behind log of one channel room.
 *
 * A room allocates sequence numbers, remembers idempotency keys, buffers rows in
 * its own storage and copies them to D1 in batches from an alarm.  The alarm is
 * cut in two at the D1 insert: sends, reloads and late or unreported commits may
 * fall in between.  Every step below is one uninterrupted stretch of the source.
 */
module ChatRoomLog {
  import opened Wrappers

  const MAX_PENDING_BATCH: nat := 50
  const ALARM_DELAY_MS: int := 250
  const MAX_FLUSH_ATTEMPTS: nat := 5
  const ALARM_BACKOFF_MS: int := 5000

  datatype SenderType = Human | Agent | System

  // What a caller hands to a room; the room adds the sequence number and the times.
  datatype Draft = Draft(id: string, channelId: string, senderId: string, senderType: SenderType,
                         content: string, threadParentId: Option<string>)

  datatype Message = Message(draft: Draft, seqNo: nat, createdAt: int, updatedAt: int) {
    // Rows written before a room knew its channel; D1's foreign key refuses them.
    predicate IsPoison() { draft.channelId == "" }
  }

  datatype PendingWrite = PendingWrite(message: Message, attempts: nat) {
    predicate IsLive() { attempts < MAX_FLUSH_ATTEMPTS }
  }

  // Idempotency keys are scoped to the sender.
  type IdemKey = (string, string)

  // One row of the plain log: the message and the key that asked for it, if any.
  datatype Entry = Entry(message: Message, key: Option<IdemKey>)

  // A D1 insert the alarm is waiting for; `landed` once D1 has executed it.
  datatype Flight = Flight(rows: seq<Message>, landed: bool)

  /** `d1` holds this room's rows by sequence number and `others` the message ids
   *  stored by other rooms, which share the primary key.  `issued` holds every batch
   *  ever sent, because a batch whose handler is gone may still land.  `log` is a
   *  history variable: every row allocated, in order. */
  datatype State = State(
    nextSeq: nat,
    storedSeq: nat,
    idem: map<IdemKey, nat>,
    pending: map<nat, PendingWrite>,
    alarm: Option<int>,
    flight: Option<Flight>,
    d1: map<nat, Message>,
    others: set<string>,
    issued: set<seq<Message>>,
    log: seq<Entry>)

  const Init := State(0, 0, map[], map[], None, None, map[], {}, {}, [])

  datatype Reply = Accepted(seqNo: nat) | Deduped(seqNo: nat)

  datatype Event =
    | SendMessage(key: string, draft: Draft, now: int)
    | SeedMessages(drafts: seq<Draft>, now: int)
    | AlarmFires(now: int)
    | FlightLands
    | StaleBatchLands(rows: seq<Message>)
    | FlightReportsOk(now: int)
    | FlightReportsError(now: int)
    | Reload(now: int)
    | OtherRoomStores(id: string)

  // ---------------------------------------------------------------- the steps

  // An alarm is only ever moved to an earlier time.
  function Arm(alarm: Option<int>, target: int): Option<int> {
    if alarm.None? || alarm.value > target then Some(target) else alarm
  }

  function Allocate(s: State, draft: Draft, now: int, key: Option<IdemKey>): State {
    var n := s.nextSeq + 1;
    var row := Message(draft, n, now, now);
    s.(nextSeq := n, storedSeq := n,
       pending := s.pending[n := PendingWrite(row, 0)],
       log := s.log + [Entry(row, key)])
  }

  function Send(s: State, key: string, draft: Draft, now: int): (State, Reply) {
    var k := (draft.senderId, key);
    if k in s.idem then (s, Deduped(s.idem[k]))
    else
      var t := Allocate(s, draft, now, Some(k));
      (t.(idem := t.idem[k := t.nextSeq], alarm := Arm(t.alarm, now + ALARM_DELAY_MS)),
       Accepted(t.nextSeq))
  }

  function AllocateAll(s: State, drafts: seq<Draft>, now: int): State
    decreases |drafts|
  {
    if drafts == [] then s
    else
      var n := |drafts| - 1;
      Allocate(AllocateAll(s, drafts[..n], now), drafts[n], now, None)
  }

  function Seed(s: State, drafts: seq<Draft>, now: int): State {
    var t := AllocateAll(s, drafts, now);
    t.(alarm := Arm(t.alarm, now + ALARM_DELAY_MS))
  }

  // SELECT ... WHERE attempts < 5 ORDER BY seq ASC LIMIT `limit`, over seqs `from..upto`.
  function SelectBatch(pending: map<nat, PendingWrite>, from: nat, upto: nat, limit: nat): seq<Message>
    decreases upto + 1 - from
  {
    if from > upto || limit == 0 then []
    else if from in pending && pending[from].IsLive() then
      [pending[from].message] + SelectBatch(pending, from + 1, upto, limit - 1)
    else SelectBatch(pending, from + 1, upto, limit)
  }

  function GoodRows(rows: seq<Message>): seq<Message> {
    if rows == [] then []
    else if rows[|rows| - 1].IsPoison() then GoodRows(rows[..|rows| - 1])
    else GoodRows(rows[..|rows| - 1]) + [rows[|rows| - 1]]
  }

  function PoisonSeqs(rows: seq<Message>): set<nat> {
    set m | m in rows && m.IsPoison() :: m.seqNo
  }

  function Seqs(rows: seq<Message>): set<nat> {
    set m | m in rows :: m.seqNo
  }

  function Batch(s: State): seq<Message> {
    SelectBatch(s.pending, 1, s.nextSeq, MAX_PENDING_BATCH)
  }

  // The alarm handler up to its D1 insert.  The platform clears the alarm first.
  function AlarmBegin(s: State): State {
    var batch := Batch(s);
    var good := GoodRows(batch);
    var t := s.(alarm := None, pending := s.pending - PoisonSeqs(batch));
    if good == [] then t
    else t.(flight := Some(Flight(good, false)), issued := t.issued + {good})
  }

  function Ids(d1: map<nat, Message>): set<string> {
    set q | q in d1 :: d1[q].draft.id
  }

  // INSERT ... ON CONFLICT DO NOTHING, on the primary key and on (channel, seq).
  function Insert(d1: map<nat, Message>, others: set<string>, m: Message): map<nat, Message> {
    if m.seqNo in d1 || m.draft.id in Ids(d1) || m.draft.id in others then d1 else d1[m.seqNo := m]
  }

  function InsertAll(d1: map<nat, Message>, others: set<string>, rows: seq<Message>): map<nat, Message>
    decreases |rows|
  {
    if rows == [] then d1
    else Insert(InsertAll(d1, others, rows[..|rows| - 1]), others, rows[|rows| - 1])
  }

  predicate SomeLive(pending: map<nat, PendingWrite>) {
    exists q :: q in pending && pending[q].IsLive()
  }

  function FinishOk(s: State, now: int): State
    requires s.flight.Some?
  {
    var left := s.pending - Seqs(s.flight.value.rows);
    s.(pending := left, flight := None,
       alarm := if SomeLive(left) then Arm(s.alarm, now + ALARM_DELAY_MS) else s.alarm)
  }

  function BumpAttempts(pending: map<nat, PendingWrite>, failed: set<nat>): map<nat, PendingWrite> {
    map q | q in pending ::
      if q in failed then pending[q].(attempts := pending[q].attempts + 1) else pending[q]
  }

  function FinishError(s: State, now: int): State
    requires s.flight.Some?
  {
    s.(pending := BumpAttempts(s.pending, Seqs(s.flight.value.rows)), flight := None,
       alarm := Arm(s.alarm, now + ALARM_BACKOFF_MS))
  }

  // A fresh instance reads its counter back; the platform runs an interrupted alarm again.
  function Restart(s: State, now: int): State {
    s.(nextSeq := s.storedSeq, flight := None,
       alarm := if s.flight.Some? then Arm(s.alarm, now) else s.alarm)
  }

  // An event that is not possible in a state changes nothing.
  function Step(s: State, e: Event): State {
    match e
    case SendMessage(key, draft, now) => Send(s, key, draft, now).0
    case SeedMessages(drafts, now) => Seed(s, drafts, now)
    case AlarmFires(now) => if s.alarm.Some? && s.flight.None? then AlarmBegin(s) else s
    case FlightLands =>
      if s.flight.Some? then
        s.(d1 := InsertAll(s.d1, s.others, s.flight.value.rows),
           flight := Some(s.flight.value.(landed := true)))
      else s
    case StaleBatchLands(rows) =>
      if rows in s.issued then s.(d1 := InsertAll(s.d1, s.others, rows)) else s
    case FlightReportsOk(now) =>
      if s.flight.Some? && s.flight.value.landed then FinishOk(s, now) else s
    case FlightReportsError(now) => if s.flight.Some? then FinishError(s, now) else s
    case Reload(now) => Restart(s, now)
    case OtherRoomStores(id) => if id in Ids(s.d1) then s else s.(others := s.others + {id})
  }

  function RunFrom(s: State, events: seq<Event>): State
    decreases |events|
  {
    if events == [] then s
    else Step(RunFrom(s, events[..|events| - 1]), events[|events| - 1])
  }

  function Run(events: seq<Event>): State { RunFrom(Init, events) }

  // ------------------------------------------------------------ the invariant

  // D1 refuses to store `m` a second time: it has the row, or its id is taken.
  ghost predicate Stored(d1: map<nat, Message>, others: set<string>, m: Message) {
    m.seqNo in d1 || m.draft.id in Ids(d1) || m.draft.id in others
  }

  ghost predicate Logged(log: seq<Entry>, m: Message) {
    1 <= m.seqNo <= |log| && log[m.seqNo - 1].message == m
  }

  ghost predicate Numbered(log: seq<Entry>) {
    forall i :: 0 <= i < |log| ==> log[i].message.seqNo == i + 1
  }

  ghost predicate CountersAgree(s: State) {
    s.nextSeq == s.storedSeq == |s.log| && Numbered(s.log)
  }

  ghost predicate BufferFits(pending: map<nat, PendingWrite>, log: seq<Entry>) {
    forall q :: q in pending ==> pending[q].message.seqNo == q && Logged(log, pending[q].message)
  }

  ghost predicate TableFits(d1: map<nat, Message>, log: seq<Entry>) {
    forall q :: q in d1 ==> d1[q].seqNo == q && Logged(log, d1[q])
  }

  ghost predicate BatchesFit(issued: set<seq<Message>>, log: seq<Entry>) {
    forall rows, m :: rows in issued && m in rows ==> Logged(log, m) && !m.IsPoison()
  }

  ghost predicate RowsComeFromLog(s: State) {
    BufferFits(s.pending, s.log) && TableFits(s.d1, s.log) && BatchesFit(s.issued, s.log)
  }

  ghost predicate AllLive(rows: seq<Message>, pending: map<nat, PendingWrite>) {
    forall m :: m in rows ==> m.seqNo in pending && pending[m.seqNo].message == m && pending[m.seqNo].IsLive()
  }

  ghost predicate AllStored(rows: seq<Message>, d1: map<nat, Message>, others: set<string>) {
    forall m :: m in rows ==> Stored(d1, others, m)
  }

  ghost predicate FlightIsBuffered(s: State) {
    s.flight.Some? ==>
      && s.flight.value.rows != []
      && s.flight.value.rows in s.issued
      && AllLive(s.flight.value.rows, s.pending)
      && (s.flight.value.landed ==> AllStored(s.flight.value.rows, s.d1, s.others))
  }

  ghost predicate AllHeld(
      log: seq<Entry>, pending: map<nat, PendingWrite>, d1: map<nat, Message>, others: set<string>)
  {
    forall i :: 0 <= i < |log| && !log[i].message.IsPoison() ==> i + 1 in pending || Stored(d1, others, log[i].message)
  }

  ghost predicate NothingLost(s: State) { AllHeld(s.log, s.pending, s.d1, s.others) }

  ghost predicate KeysFit(idem: map<IdemKey, nat>, log: seq<Entry>) {
    && (forall k :: k in idem ==> 1 <= idem[k] <= |log| && log[idem[k] - 1].key == Some(k))
    && (forall i :: 0 <= i < |log| && log[i].key.Some? ==> log[i].key.value in idem && idem[log[i].key.value] == i + 1)
  }

  ghost predicate KeysAgree(s: State) { KeysFit(s.idem, s.log) }

  ghost predicate Inv(s: State) {
    && CountersAgree(s)
    && RowsComeFromLog(s)
    && FlightIsBuffered(s)
    && NothingLost(s)
    && KeysAgree(s)
  }
}
