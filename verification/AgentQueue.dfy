/** What the bridge's agent manager does for one agent, as a state machine.
 *
 * Agents do not share state, so one agent is enough.  Messages are numbered in the order
 * the manager accepts them.  Each message that is started has an activation of `_sendNow`:
 * it waits for its "running" report, then for the runtime's send, then, if that fails, for
 * its "failed" report.  An activation belongs to the entry it was started on and may
 * outlive it.  A step is the code between two awaits.
 */
module AgentQueue {
  import opened Wrappers

  datatype Phase = Reporting | Sending | Failing

  // Entries are numbered too; `epoch` is the number of the one the activation was started on.
  datatype Act = Act(epoch: nat, phase: Phase)

  // `current` is the message of `currentRunId`.
  datatype Entry = Entry(busy: bool, current: Option<nat>, queue: seq<nat>)

  const Idle := Entry(false, None, [])

  // A message handed to the runtime session of an entry.
  datatype Handed = Handed(epoch: nat, msg: nat)

  /** `waiters` await the shared spawn, `carried` is the queue a restart holds back for the
   *  next entry.  `epoch` numbers the mapped entry, or the last one.  `open` are the messages
   *  whose turn runs on the mapped entry's session.  `settled`, `started` and `sent` are
   *  histories: reported final, given an activation, handed to a session. */
  datatype State = State(
    session: bool,
    spawning: bool,
    waiters: seq<nat>,
    carried: seq<nat>,
    entry: Option<Entry>,
    epoch: nat,
    acts: map<nat, Act>,
    open: set<nat>,
    settled: seq<nat>,
    started: seq<nat>,
    sent: seq<Handed>,
    next: nat)

  const Init := State(true, false, [], [], None, 0, map[], {}, [], [], [], 0)

  /** `TurnCompletes(msg)` is a turn_complete that the turn of `msg` gives rise to, be it the
   *  first or a repeated one; the handler does not learn which message it was. */
  datatype Event =
    | Accept
    | AcceptUnavailable
    | SpawnSucceeds
    | SpawnFails
    | RunReported(msg: nat)
    | SendResolves(msg: nat)
    | SendRejects(msg: nat)
    | FailureReported(msg: nat)
    | TurnCompletes(msg: nat)
    | Exits
    | Stops
    | Restarts

  // ------------------------------------------------------------------ the steps

  // The synchronous head of `_sendNow`.
  function Start(s: State, msg: nat): State
    requires s.entry.Some?
  {
    s.(entry := Some(s.entry.value.(busy := true, current := Some(msg))),
       acts := s.acts[msg := Act(s.epoch, Reporting)],
       started := s.started + [msg])
  }

  function Deliver(s: State, msg: nat): State
    requires s.entry.Some?
  {
    var e := s.entry.value;
    if e.busy then s.(entry := Some(e.(queue := e.queue + [msg]))) else Start(s, msg)
  }

  // The callers that waited for the spawn go on, in the order they came.
  function DeliverWaiters(s: State): State
    requires s.entry.Some?
    decreases |s.waiters|
  {
    if s.waiters == [] then s
    else DeliverWaiters(Deliver(s.(waiters := s.waiters[1..]), s.waiters[0]))
  }

  function Drain(s: State): State {
    if s.entry.None? || !s.session || s.entry.value.queue == [] then s
    else
      var e := s.entry.value;
      Start(s.(entry := Some(e.(queue := e.queue[1..]))), e.queue[0])
  }

  function Current(s: State): seq<nat> {
    if s.entry.Some? && s.entry.value.current.Some? then [s.entry.value.current.value] else []
  }

  function Queue(s: State): seq<nat> {
    if s.entry.Some? then s.entry.value.queue else []
  }

  // Free the entry, settle its message and go on with the next one.
  function Release(s: State): State
    requires s.entry.Some?
  {
    Drain(s.(entry := Some(s.entry.value.(busy := false, current := None)),
             settled := s.settled + Current(s)))
  }

  // Settle everything the entry holds and forget it; its activations live on.
  function DropEntry(s: State): State
    requires s.entry.Some?
  {
    s.(entry := None, open := {}, settled := s.settled + Current(s) + Queue(s))
  }

  function AcceptStep(s: State): State {
    var t := s.(next := s.next + 1);
    if t.entry.Some? then Deliver(t, s.next)
    else t.(spawning := true, waiters := t.waiters + [s.next])
  }

  // A spawn whose agent was stopped meanwhile rejects everyone; one that fails, only its waiters.
  function SpawnStep(s: State, ready: bool): State {
    var t := s.(spawning := false, carried := []);
    if ready && s.session then
      DeliverWaiters(t.(entry := Some(Idle.(queue := s.carried)), epoch := s.epoch + 1))
    else
      t.(waiters := [], settled := s.settled + s.waiters + (if ready then s.carried else []))
  }

  // Pull the entry and hold its queue back until the next one is there; nothing is settled.
  function RestartStep(s: State): State
    requires s.entry.Some?
  {
    s.(entry := None, open := {}, spawning := true, carried := s.entry.value.queue)
  }

  predicate InPhase(s: State, msg: nat, phase: Phase) { msg in s.acts && s.acts[msg].phase == phase }

  // The activation's entry is the one in the map.
  predicate Mapped(s: State, msg: nat) {
    s.entry.Some? && msg in s.acts && s.acts[msg].epoch == s.epoch
  }

  predicate IsCurrent(s: State, msg: nat) { s.entry.Some? && s.entry.value.current == Some(msg) }

  predicate WasSent(s: State, msg: nat) { exists i :: 0 <= i < |s.sent| && s.sent[i].msg == msg }

  // The session gets the message; only on the mapped entry does a turn of it run.
  function Hand(s: State, msg: nat): State
    requires msg in s.acts
  {
    s.(acts := s.acts[msg := s.acts[msg].(phase := Sending)],
       sent := s.sent + [Handed(s.acts[msg].epoch, msg)],
       open := if Mapped(s, msg) then s.open + {msg} else s.open)
  }

  /** The end of a failed `_sendNow`: report, clear the current message if it is still this
   *  one, free the entry it was started on, and drain whatever entry is mapped now. */
  function FailStep(s: State, msg: nat): State
    requires msg in s.acts
  {
    var t := s.(acts := s.acts - {msg});
    if Mapped(s, msg) && IsCurrent(s, msg) then Release(t)
    else
      var u := if msg in s.settled then t else t.(settled := s.settled + [msg]);
      Drain(if Mapped(s, msg) then u.(entry := Some(s.entry.value.(busy := false))) else u)
  }

  // An event that is not possible in a state changes nothing.
  function Step(s: State, ev: Event): State {
    match ev
    case Accept => if s.session then AcceptStep(s) else s
    case AcceptUnavailable =>
      if s.session then s.(next := s.next + 1, settled := s.settled + [s.next]) else s
    case SpawnSucceeds => if s.spawning then SpawnStep(s, true) else s
    case SpawnFails => if s.spawning then SpawnStep(s, false) else s
    case RunReported(msg) => if InPhase(s, msg, Reporting) then Hand(s, msg) else s
    case SendResolves(msg) => if InPhase(s, msg, Sending) then s.(acts := s.acts - {msg}) else s
    case SendRejects(msg) =>
      if InPhase(s, msg, Sending)
      then s.(acts := s.acts[msg := s.acts[msg].(phase := Failing)], open := s.open - {msg})
      else s
    case FailureReported(msg) => if InPhase(s, msg, Failing) then FailStep(s, msg) else s
    case TurnCompletes(msg) =>
      if WasSent(s, msg) && s.entry.Some? then Release(s.(open := s.open - {msg})) else s
    case Exits => if s.entry.Some? then DropEntry(s) else s
    case Stops =>
      var t := s.(session := false);
      if t.entry.Some? then DropEntry(t) else t
    case Restarts => if s.session && s.entry.Some? then RestartStep(s) else s
  }

  function Run(events: seq<Event>): State
    decreases |events|
  {
    if events == [] then Init else Step(Run(events[..|events| - 1]), events[|events| - 1])
  }

  // ------------------------------------------------------------- the invariant

  // Where accepted messages can be: each is in exactly one place, once.
  function Places(s: State): multiset<nat> {
    multiset(s.waiters) + multiset(Queue(s)) + multiset(Current(s)) + multiset(s.settled)
  }

  ghost predicate Conserved(s: State) {
    forall id: nat :: Places(s)[id] == if id < s.next then 1 else 0
  }

  // Everything started so far, then everything that will be, in that order.
  function Pipeline(s: State): seq<nat> { s.started + Queue(s) + s.waiters }

  ghost predicate Ascending(ids: seq<nat>) {
    forall i, j :: 0 <= i < j < |ids| ==> ids[i] < ids[j]
  }

  ghost predicate AllBelow(ids: seq<nat>, n: nat) { forall i :: 0 <= i < |ids| ==> ids[i] < n }

  ghost predicate InOrder(s: State) { Ascending(Pipeline(s)) && AllBelow(Pipeline(s), s.next) }

  ghost predicate Shaped(s: State) {
    && (s.entry.Some? ==>
          var e := s.entry.value;
          && (e.busy <==> e.current.Some?)
          && (e.queue != [] ==> e.busy)
          && (e.busy ==> s.started != [] && s.started[|s.started| - 1] == e.current.value)
          && s.session && !s.spawning)
    && s.carried == []
  }

  // Activations and hand-overs are of started messages and of entries so far.
  ghost predicate Known(acts: map<nat, Act>, sent: seq<Handed>, started: seq<nat>, epoch: nat) {
    && (forall m :: m in acts ==> m in started && acts[m].epoch <= epoch)
    && (forall i :: 0 <= i < |sent| ==> sent[i].msg in started && sent[i].epoch <= epoch)
  }

  // What an entry's session was handed comes before what is still to be handed to it.
  ghost predicate ReportingIsNext(acts: map<nat, Act>, sent: seq<Handed>) {
    && (forall m, i :: m in acts && acts[m].phase.Reporting? && 0 <= i < |sent| ==>
          sent[i].msg != m && (sent[i].epoch == acts[m].epoch ==> sent[i].msg < m))
    && (forall m, k :: m in acts && k in acts && acts[m] == acts[k] && acts[m].phase.Reporting? ==> m == k)
  }

  // Each session is handed messages in acceptance order.
  ghost predicate SentInOrder(sent: seq<Handed>) {
    forall i, j :: 0 <= i < j < |sent| && sent[i].epoch == sent[j].epoch ==> sent[i].msg < sent[j].msg
  }

  // On the mapped entry only the current message is still to be handed over.
  ghost predicate ReportingIsCurrent(entry: Option<Entry>, epoch: nat, acts: map<nat, Act>) {
    entry.Some? ==>
      && (forall m :: m in acts && acts[m] == Act(epoch, Reporting) ==> entry.value.current == Some(m))
      && (entry.value.current.Some? && entry.value.current.value in acts ==>
            acts[entry.value.current.value].epoch == epoch)
  }

  // The only turn that may be running is the current message's, and it runs from the
  // hand-over until it completes or the send fails.
  ghost predicate OpenIsCurrent(entry: Option<Entry>, acts: map<nat, Act>, open: set<nat>) {
    && (forall m :: m in open ==>
          && entry.Some? && entry.value.current == Some(m)
          && (m in acts ==> acts[m].phase.Sending?))
    && (entry.Some? && entry.value.current.Some? ==>
          var k := entry.value.current.value;
          k in open || (k in acts && !acts[k].phase.Sending?))
  }

  ghost predicate ActsFit(s: State) {
    && Known(s.acts, s.sent, s.started, s.epoch)
    && ReportingIsNext(s.acts, s.sent)
    && SentInOrder(s.sent)
    && ReportingIsCurrent(s.entry, s.epoch, s.acts)
    && OpenIsCurrent(s.entry, s.acts, s.open)
  }

  ghost predicate Core(s: State) { Shaped(s) && Conserved(s) && InOrder(s) && ActsFit(s) }

  ghost predicate Inv(s: State) { Core(s) && (!s.spawning ==> s.waiters == []) }

  /** When the events that can go wrong do no damage: a turn_complete is the current message's
   *  own, or finds no current message or one whose send has failed; the end of a failed send
   *  finds its message current, or nothing to disturb; a restart finds nothing to carry. */
  predicate Harmless(s: State, ev: Event) {
    match ev
    case TurnCompletes(msg) =>
      || !WasSent(s, msg) || Current(s) == [] || IsCurrent(s, msg)
      || InPhase(s, s.entry.value.current.value, Failing)
    case FailureReported(msg) =>
      || !InPhase(s, msg, Failing) || s.entry.None? || IsCurrent(s, msg)
      || (if Mapped(s, msg) then !s.entry.value.busy else Queue(s) == [])
    case Restarts => !s.session || s.entry.None? || (Queue(s) == [] && Current(s) == [])
    case _ => true
  }

  // ---------------------------------------------------------------- starting a message

  lemma StartKeepsActs(s: State, msg: nat)
    requires s.entry.Some? && s.entry.value.current.None? && ActsFit(s)
    requires Ascending(s.started + [msg])
    ensures ActsFit(Start(s, msg))
  {
    var t := Start(s, msg);
    BeforeTheLast(s.started, msg);
    assert s.open == {};
    assert Known(t.acts, t.sent, t.started, t.epoch);
  }

  lemma BeforeTheLast(ids: seq<nat>, last: nat)
    requires Ascending(ids + [last])
    ensures last !in ids && forall x :: x in ids ==> x < last
    ensures forall x :: x in ids ==> x in ids + [last]
  {
    forall x | x in ids ensures x < last && x in ids + [last] {
      var i :| 0 <= i < |ids| && ids[i] == x;
      assert (ids + [last])[i] == x && (ids + [last])[|ids|] == last;
    }
  }

  // A message in hand, next in the pipeline, is started on an idle entry.
  lemma StartKeeps(s: State, msg: nat)
    requires s.entry.Some? && !s.entry.value.busy && s.entry.value.current.None?
    requires s.session && !s.spawning && s.carried == [] && ActsFit(s)
    requires forall id: nat :: Places(s)[id] + multiset{msg}[id] == if id < s.next then 1 else 0
    requires var p := s.started + [msg] + Queue(s) + s.waiters; Ascending(p) && AllBelow(p, s.next)
    ensures Core(Start(s, msg))
    ensures Pipeline(Start(s, msg)) == s.started + [msg] + Queue(s) + s.waiters
  {
    var t, p := Start(s, msg), s.started + [msg] + Queue(s) + s.waiters;
    assert Pipeline(t) == p;
    assert Places(t) == Places(s) + multiset{msg};
    assert forall i :: 0 <= i <= |s.started| ==> (s.started + [msg])[i] == p[i];
    StartKeepsActs(s, msg);
  }

  // An idle entry with a queue starts the head of it.
  lemma DrainKeeps(s: State)
    requires s.entry.Some? && !s.entry.value.busy && s.entry.value.current.None?
    requires s.session && !s.spawning && s.carried == []
    requires Conserved(s) && InOrder(s) && ActsFit(s)
    ensures Core(Drain(s)) && Drain(s).spawning == s.spawning && Drain(s).waiters == s.waiters
  {
    var e := s.entry.value;
    if e.queue != [] {
      var t, msg := s.(entry := Some(e.(queue := e.queue[1..]))), e.queue[0];
      assert e.queue == [msg] + e.queue[1..];
      assert t.started + [msg] + Queue(t) + t.waiters == Pipeline(s);
      HeadInHand(s, t, msg);
      StartKeeps(t, msg);
    }
  }

  lemma HeadInHand(s: State, t: State, msg: nat)
    requires Conserved(s) && t.next == s.next
    requires Queue(s) == [msg] + Queue(t)
    requires t.waiters == s.waiters && Current(t) == Current(s) && t.settled == s.settled
    ensures forall id: nat :: Places(t)[id] + multiset{msg}[id] == if id < t.next then 1 else 0
  {
    assert multiset(Queue(s)) == multiset{msg} + multiset(Queue(t));
    forall id: nat
      ensures Places(t)[id] + multiset{msg}[id] == if id < t.next then 1 else 0
    {
      assert Places(s)[id] == Places(t)[id] + multiset{msg}[id];
    }
  }

  // `u` is `s` with no turn running and perhaps fewer activations, none of them to be sent.
  ghost predicate Quieted(s: State, u: State) {
    && u == s.(acts := u.acts, open := {})
    && (forall m :: m in u.acts ==> m in s.acts && u.acts[m] == s.acts[m] && u.acts[m] != Act(s.epoch, Reporting))
  }

  // Settling the current message, when nothing of the entry is still running or to be sent.
  lemma ReleaseKeeps(s: State, u: State)
    requires Core(s) && s.entry.Some? && Quieted(s, u)
    ensures Core(Release(u)) && Release(u).spawning == s.spawning && Release(u).waiters == s.waiters
  {
    var t := u.(entry := Some(s.entry.value.(busy := false, current := None)), settled := s.settled + Current(s));
    assert Pipeline(t) == Pipeline(s);
    assert Places(t) == Places(s);
    QuietedActs(s, u, t);
    DrainKeeps(t);
  }

  lemma QuietedActs(s: State, u: State, t: State)
    requires ActsFit(s) && s.entry.Some? && Quieted(s, u)
    requires t == u.(entry := t.entry, settled := t.settled) && t.entry.Some? && t.entry.value.current.None?
    ensures ActsFit(t)
  {
  }

  // ---------------------------------------------------------------- accepting and spawning

  // A busy entry queues the first waiter.
  lemma QueueingKeeps(s: State)
    requires Core(s) && s.entry.Some? && s.entry.value.busy && s.waiters != []
    ensures var t := Deliver(s.(waiters := s.waiters[1..]), s.waiters[0]);
      Core(t) && Pipeline(t) == Pipeline(s)
  {
    var t := Deliver(s.(waiters := s.waiters[1..]), s.waiters[0]);
    MoveOne(Queue(s), s.waiters);
    assert Queue(t) == Queue(s) + [s.waiters[0]];
    assert Pipeline(t) == Pipeline(s);
    assert Places(t) == Places(s);
  }

  lemma MoveOne(queue: seq<nat>, waiters: seq<nat>)
    requires waiters != []
    ensures (queue + [waiters[0]]) + waiters[1..] == queue + waiters
    ensures multiset(waiters) == multiset{waiters[0]} + multiset(waiters[1..])
    ensures multiset(queue + [waiters[0]]) == multiset(queue) + multiset{waiters[0]}
  {
    assert waiters == [waiters[0]] + waiters[1..];
  }

  // An idle one starts it.
  lemma StartingKeeps(s: State)
    requires Core(s) && s.entry.Some? && !s.entry.value.busy && s.waiters != []
    ensures var t := Deliver(s.(waiters := s.waiters[1..]), s.waiters[0]);
      Core(t) && Pipeline(t) == Pipeline(s)
  {
    var u, msg := s.(waiters := s.waiters[1..]), s.waiters[0];
    MoveOne(Queue(s), s.waiters);
    assert Queue(s) == [] && s.started + [msg] + Queue(u) + u.waiters == Pipeline(s);
    forall id: nat
      ensures Places(u)[id] + multiset{msg}[id] == if id < u.next then 1 else 0
    {
      assert Places(s)[id] == Places(u)[id] + multiset{msg}[id];
    }
    StartKeeps(u, msg);
  }

  // The first waiter reaches the entry: the pipeline and the places stay as they are.
  lemma DeliverKeeps(s: State)
    requires Core(s) && s.entry.Some? && s.waiters != []
    ensures var t := Deliver(s.(waiters := s.waiters[1..]), s.waiters[0]);
      && Core(t) && t.entry.Some? && t.waiters == s.waiters[1..] && t.spawning == s.spawning
      && Pipeline(t) == Pipeline(s) && t.next == s.next
  {
    if s.entry.value.busy { QueueingKeeps(s); } else { StartingKeeps(s); }
  }

  /** The callers of a shared spawn are started or queued in the order they arrived. */
  lemma {:induction false} WaitersAreServedInOrder(s: State)
    requires Core(s) && s.entry.Some?
    ensures var t := DeliverWaiters(s);
      && Core(t) && t.waiters == [] && t.spawning == s.spawning && t.entry.Some?
      && t.started + Queue(t) == s.started + Queue(s) + s.waiters
    decreases |s.waiters|
  {
    if s.waiters == [] {
      assert Pipeline(s) == s.started + Queue(s);
    } else {
      DeliverKeeps(s);
      WaitersAreServedInOrder(Deliver(s.(waiters := s.waiters[1..]), s.waiters[0]));
    }
  }

  // A message joins the waiters.
  lemma JoinKeeps(s: State, t: State)
    requires Core(s) && t == s.(next := s.next + 1, waiters := s.waiters + [s.next], spawning := t.spawning)
    requires t.entry.Some? ==> !t.spawning
    ensures Core(t)
  {
    JoinConserves(s, t);
    JoinKeepsOrder(s, t);
  }

  lemma JoinConserves(s: State, t: State)
    requires Conserved(s) && t == s.(next := s.next + 1, waiters := s.waiters + [s.next], spawning := t.spawning)
    ensures Conserved(t)
  {
    assert multiset(t.waiters) == multiset(s.waiters) + multiset{s.next};
    forall id: nat ensures Places(t)[id] == if id < t.next then 1 else 0 {
      assert Places(t)[id] == Places(s)[id] + multiset{s.next}[id];
    }
  }

  lemma JoinKeepsOrder(s: State, t: State)
    requires InOrder(s) && t == s.(next := s.next + 1, waiters := s.waiters + [s.next], spawning := t.spawning)
    ensures InOrder(t)
  {
    assert Pipeline(t) == Pipeline(s) + [s.next];
  }

  lemma AcceptedByEntry(s: State)
    requires Inv(s) && s.entry.Some?
    ensures Inv(AcceptStep(s))
  {
    var t := s.(next := s.next + 1, waiters := [s.next]);
    assert s.waiters + [s.next] == [s.next];
    JoinKeeps(s, t);
    DeliverKeeps(t);
    assert t.waiters[1..] == [] && t.(waiters := []) == s.(next := s.next + 1);
  }

  lemma AcceptKeeps(s: State)
    requires Inv(s) && s.session
    ensures Inv(AcceptStep(s))
  {
    if s.entry.Some? { AcceptedByEntry(s); } else { JoinKeeps(s, AcceptStep(s)); }
  }

  lemma RejectUpFrontKeeps(s: State)
    requires Inv(s)
    ensures Inv(Step(s, AcceptUnavailable))
  {
    var t := Step(s, AcceptUnavailable);
    if s.session {
      assert Pipeline(t) == Pipeline(s);
      forall id: nat ensures Places(t)[id] == if id < t.next then 1 else 0 {
        assert Places(t)[id] == Places(s)[id] + multiset{s.next}[id];
      }
    }
  }

  lemma SpawnFailsKeeps(s: State, ready: bool)
    requires Inv(s) && s.spawning && !(ready && s.session)
    ensures Inv(SpawnStep(s, ready))
  {
    var t := SpawnStep(s, ready);
    assert t.settled == s.settled + s.waiters;
    assert Pipeline(t) == Pipeline(s)[..|s.started|];
    assert Places(t) == Places(s);
  }

  lemma SpawnKeeps(s: State)
    requires Inv(s) && s.spawning && s.session
    ensures Inv(SpawnStep(s, true))
  {
    var u := s.(spawning := false, entry := Some(Idle), epoch := s.epoch + 1);
    assert Pipeline(u) == Pipeline(s) && Places(u) == Places(s);
    assert s.open == {};
    WaitersAreServedInOrder(u);
  }

  // ---------------------------------------------------------------- what moves no message

  // A step that moves no message and starts none.
  lemma FrameKeeps(s: State, t: State)
    requires Inv(s) && Shaped(t) && ActsFit(t)
    requires t.next == s.next && Pipeline(t) == Pipeline(s) && Places(t) == Places(s)
    requires t.spawning == s.spawning && t.waiters == s.waiters
    ensures Inv(t)
  {
  }

  lemma HandKeeps(s: State, msg: nat)
    requires Inv(s) && InPhase(s, msg, Reporting)
    ensures Inv(Hand(s, msg))
  {
    var t := Hand(s, msg);
    HandKeepsSent(s, msg);
    FrameKeeps(s, t);
  }

  lemma HandKeepsSent(s: State, msg: nat)
    requires ActsFit(s) && InPhase(s, msg, Reporting)
    ensures ActsFit(Hand(s, msg))
  {
    var t := Hand(s, msg);
    assert Known(t.acts, t.sent, t.started, t.epoch);
    assert ReportingIsNext(t.acts, t.sent);
    assert SentInOrder(t.sent);
  }

  lemma SendResolvesKeeps(s: State, msg: nat)
    requires Inv(s) && InPhase(s, msg, Sending)
    ensures Inv(s.(acts := s.acts - {msg}))
  {
    var t := s.(acts := s.acts - {msg});
    assert ActsFit(t);
    FrameKeeps(s, t);
  }

  lemma RejectionFits(s: State, t: State, msg: nat)
    requires ActsFit(s) && InPhase(s, msg, Sending)
    requires t == s.(acts := s.acts[msg := s.acts[msg].(phase := Failing)], open := s.open - {msg})
    ensures ActsFit(t)
  {
    assert Known(t.acts, t.sent, t.started, t.epoch);
    assert ReportingIsNext(t.acts, t.sent);
  }

  lemma SendRejectsKeeps(s: State, msg: nat)
    requires Inv(s) && InPhase(s, msg, Sending)
    ensures Inv(Step(s, SendRejects(msg)))
  {
    var t := Step(s, SendRejects(msg));
    RejectionFits(s, t, msg);
    FrameKeeps(s, t);
  }

  lemma DropKeeps(s: State, session: bool)
    requires Inv(s) && s.entry.Some?
    ensures Inv(DropEntry(s.(session := session)))
  {
    var t := DropEntry(s.(session := session));
    assert Pipeline(t) == Pipeline(s)[..|s.started|];
    assert Places(t) == Places(s);
  }

  lemma StopKeeps(s: State)
    requires Inv(s)
    ensures Inv(Step(s, Stops))
  {
    if s.entry.Some? { DropKeeps(s, false); } else { FrameKeeps(s, Step(s, Stops)); }
  }

  // ---------------------------------------------------------------- the risky events

  lemma TurnCompletesKeeps(s: State, msg: nat)
    requires Inv(s) && Harmless(s, TurnCompletes(msg))
    ensures Inv(Step(s, TurnCompletes(msg)))
  {
    if WasSent(s, msg) && s.entry.Some? {
      ReleaseKeeps(s, s.(open := s.open - {msg}));
    }
  }

  // A started message that is not current has been settled.
  lemma StartedIsCurrentOrSettled(s: State, msg: nat)
    requires InOrder(s) && Conserved(s) && msg in s.started
    ensures msg in s.settled || Current(s) == [msg]
  {
    var i :| 0 <= i < |s.started| && s.started[i] == msg;
    var p := Pipeline(s);
    assert p[i] == msg;
    assert forall j :: 0 <= j < |Queue(s)| ==> p[|s.started| + j] == Queue(s)[j];
    assert forall j :: 0 <= j < |s.waiters| ==> p[|s.started| + |Queue(s)| + j] == s.waiters[j];
    assert msg !in Queue(s) && msg !in s.waiters;
    assert Places(s)[msg] == 1;
  }

  lemma FailureKeeps(s: State, msg: nat)
    requires Inv(s) && InPhase(s, msg, Failing) && Harmless(s, FailureReported(msg))
    ensures Inv(FailStep(s, msg))
  {
    var t := s.(acts := s.acts - {msg});
    if IsCurrent(s, msg) {
      ReleaseKeeps(s, t);
    } else {
      StartedIsCurrentOrSettled(s, msg);
      assert FailStep(s, msg) == t;
      FrameKeeps(s, t);
    }
  }

  // Draining under a running message forgets that message.
  lemma LostByOverlap(s: State)
    requires Inv(s) && s.entry.Some? && s.entry.value.queue != []
    ensures exists id: nat :: id < s.next && Places(Drain(s))[id] == 0
  {
    var e, t := s.entry.value, Drain(s);
    assert e.queue == [e.queue[0]] + e.queue[1..];
    var id := e.current.value;
    assert Places(s) == multiset(s.waiters) + (multiset{e.queue[0]} + multiset(e.queue[1..]))
                        + multiset{id} + multiset(s.settled);
    assert Places(t) == multiset(s.waiters) + multiset(e.queue[1..]) + multiset{e.queue[0]} + multiset(s.settled);
    assert Places(s) == Places(t) + multiset{id};
    assert Places(s)[id] == Places(t)[id] + 1;
  }

  lemma FailureBreaks(s: State, msg: nat)
    requires Inv(s) && !Harmless(s, FailureReported(msg))
    ensures !Inv(FailStep(s, msg))
  {
    StartedIsCurrentOrSettled(s, msg);
    var e, t := s.entry.value, FailStep(s, msg);
    if e.queue != [] {
      LostByOverlap(s);
      assert Places(t) == Places(Drain(s));
    } else {
      assert t.entry.value == e.(busy := false);
    }
  }

  // A turn_complete of another message leaves the current one to be sent, or running, unheld.
  lemma TurnCompletesBreaks(s: State, msg: nat)
    requires Inv(s) && !Harmless(s, TurnCompletes(msg))
    ensures !Inv(Step(s, TurnCompletes(msg)))
  {
    var k := s.entry.value.current.value;
    var u := s.(open := s.open - {msg});
    var t := Release(u);
    assert Step(s, TurnCompletes(msg)) == t && k != msg;
    assert k !in Queue(s) by { assert Places(s)[k] == 1; }
    if k in s.open {
      assert k in t.open && t.entry.value.current != Some(k);
    } else {
      assert s.acts[k] == Act(s.epoch, Reporting) && t.entry.value.current != Some(k);
      assert t.acts[k] == Act(s.epoch, Reporting);
    }
  }

  lemma RestartBreaks(s: State)
    requires Inv(s) && !Harmless(s, Restarts)
    ensures !Inv(Step(s, Restarts))
  {
    var e, t := s.entry.value, Step(s, Restarts);
    if e.queue == [] {
      var id := e.current.value;
      assert Places(s) == Places(t) + multiset{id};
      assert Places(s)[id] == Places(t)[id] + 1;
    }
  }

  lemma RestartKeeps(s: State)
    requires Inv(s) && Harmless(s, Restarts)
    ensures Inv(Step(s, Restarts))
  {
    var t := Step(s, Restarts);
    if s.session && s.entry.Some? {
      assert Pipeline(t) == Pipeline(s) && Places(t) == Places(s);
    }
  }

  lemma StepKeeps(s: State, ev: Event)
    requires Inv(s) && Harmless(s, ev)
    ensures Inv(Step(s, ev))
  {
    match ev
    case Accept => if s.session { AcceptKeeps(s); }
    case AcceptUnavailable => RejectUpFrontKeeps(s);
    case SpawnSucceeds =>
      if s.spawning { if s.session { SpawnKeeps(s); } else { SpawnFailsKeeps(s, true); } }
    case SpawnFails => if s.spawning { SpawnFailsKeeps(s, false); }
    case RunReported(msg) => if InPhase(s, msg, Reporting) { HandKeeps(s, msg); }
    case SendResolves(msg) => if InPhase(s, msg, Sending) { SendResolvesKeeps(s, msg); }
    case SendRejects(msg) => if InPhase(s, msg, Sending) { SendRejectsKeeps(s, msg); }
    case FailureReported(msg) => if InPhase(s, msg, Failing) { FailureKeeps(s, msg); }
    case TurnCompletes(msg) => TurnCompletesKeeps(s, msg);
    case Exits => if s.entry.Some? { DropKeeps(s, s.session); }
    case Stops => StopKeeps(s);
    case Restarts => RestartKeeps(s);
  }

  /** Every step keeps the invariant exactly when it is harmless, so only three kinds of event
   *  can do damage, each exactly outside its guard: a turn_complete, the end of a failed
   *  send, and a restart. */
  lemma RiskyEventsKeepExactlyWhenHarmless(s: State, ev: Event)
    requires Inv(s)
    ensures Inv(Step(s, ev)) <==> Harmless(s, ev)
  {
    if Harmless(s, ev) { StepKeeps(s, ev); }
    else if ev.TurnCompletes? { TurnCompletesBreaks(s, ev.msg); }
    else if ev.FailureReported? { FailureBreaks(s, ev.msg); }
    else { RestartBreaks(s); }
  }

  // ------------------------------------------------------------------ theorems

  // Every event of the run came at a harmless moment.
  ghost predicate Safe(events: seq<Event>) {
    forall n :: 0 <= n < |events| ==> Harmless(Run(events[..n]), events[n])
  }

  lemma {:induction false} RunKeeps(events: seq<Event>)
    requires Safe(events)
    ensures Inv(Run(events))
    decreases |events|
  {
    if events != [] {
      var front := events[..|events| - 1];
      forall n | 0 <= n < |front| ensures Harmless(Run(front[..n]), front[n]) {
        assert front[..n] == events[..n];
      }
      RunKeeps(front);
      assert events[..|events| - 1] == front;
      StepKeeps(Run(front), events[|events| - 1]);
    }
  }

  /** One turn at a time, in acceptance order: in every safe run only the current message's
   *  turn can be running, every other message started has been settled, each session is
   *  handed messages in acceptance order, and whoever is queued waits for a busy entry. */
  lemma {:induction false} SendsAreSerialAndOrdered(events: seq<Event>)
    requires Safe(events)
    ensures var s := Run(events);
      && (forall m :: m in s.open ==> Current(s) == [m])
      && (forall m :: m in s.started ==> m in s.settled || Current(s) == [m])
      && SentInOrder(s.sent)
      && Ascending(s.started + Queue(s))
      && (Queue(s) != [] ==> s.entry.value.busy)
  {
    RunKeeps(events);
    var s := Run(events);
    assert forall i :: 0 <= i < |s.started + Queue(s)| ==> (s.started + Queue(s))[i] == Pipeline(s)[i];
    forall m | m in s.started
      ensures m in s.settled || Current(s) == [m]
    {
      StartedIsCurrentOrSettled(s, m);
    }
  }

  /** A message is handed to the mapped session only while it is current, and only after
   *  everything handed to that session before has been settled. */
  lemma {:induction false} HandedOnlyWhileCurrent(events: seq<Event>, msg: nat)
    requires Safe(events) && InPhase(Run(events), msg, Reporting) && Mapped(Run(events), msg)
    ensures var s := Run(events);
      && Current(s) == [msg] && msg !in s.settled
      && forall i :: 0 <= i < |s.sent| && s.sent[i].epoch == s.epoch ==> s.sent[i].msg in s.settled
  {
    RunKeeps(events);
    var s := Run(events);
    assert s.acts[msg] == Act(s.epoch, Reporting);
    assert msg !in s.settled by { assert Places(s)[msg] == 1; }
    forall i | 0 <= i < |s.sent| && s.sent[i].epoch == s.epoch
      ensures s.sent[i].msg in s.settled
    {
      StartedIsCurrentOrSettled(s, s.sent[i].msg);
    }
  }

  /** Nothing is lost or settled twice: every accepted message is in exactly one of waiters,
   *  queue, runtime and settled; once the agent is idle, all of them are settled. */
  lemma {:induction false} MessagesAreConserved(events: seq<Event>, id: nat)
    requires Safe(events)
    ensures var s := Run(events);
      && Places(s)[id] == (if id < s.next then 1 else 0)
      && (!s.spawning && Current(s) == [] ==> (id in s.settled <==> id < s.next))
  {
    RunKeeps(events);
    var s := Run(events);
    if !s.spawning && Current(s) == [] {
      assert Places(s) == multiset(s.settled);
    }
  }
}
