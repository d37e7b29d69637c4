/** Runs of the agent manager in which a risky event comes at a harmful moment. */
module AgentQueueGaps {
  import opened Wrappers
  import opened AgentQueue
  import opened AgentRestart

  lemma AfterSnoc(events: seq<Event>, n: nat, before: State, after: State)
    requires n < |events| && Run(events[..n]) == before && Step(before, events[n]) == after
    ensures Run(events[..n + 1]) == after
  {
    assert events[..n + 1][..n] == events[..n];
  }

  // ------------------------------------------------------------ how every run begins

  ghost predicate StartsWithOne(events: seq<Event>) {
    |events| >= 3 && events[0] == Accept && events[1] == SpawnSucceeds && events[2] == RunReported(0)
  }

  // Message 0 on a fresh entry, handed to its session.
  function OneSending(): State {
    State(true, false, [], [], Some(Entry(true, Some(0), [])), 1, map[0 := Act(1, Sending)], {0},
          [], [0], [Handed(1, 0)], 1)
  }

  lemma OneWaiter(s: State)
    requires s.spawning && s.session && |s.waiters| == 1 && s.entry.None? && s.carried == []
    ensures Step(s, SpawnSucceeds)
         == Start(s.(spawning := false, waiters := [], entry := Some(Idle), epoch := s.epoch + 1), s.waiters[0])
  {
    var u := s.(spawning := false, entry := Some(Idle), epoch := s.epoch + 1);
    assert s.waiters[1..] == [];
    assert DeliverWaiters(u) == DeliverWaiters(Deliver(u.(waiters := []), s.waiters[0]));
  }

  lemma FirstThree(events: seq<Event>)
    requires StartsWithOne(events)
    ensures Run(events[..3]) == OneSending()
  {
    var s1 := Init.(next := 1, spawning := true, waiters := [0]);
    AfterSnoc(events, 0, Init, s1);
    OneWaiter(s1);
    var s2 := Step(s1, SpawnSucceeds);
    AfterSnoc(events, 1, s1, s2);
    AfterSnoc(events, 2, s2, OneSending());
  }

  // Message 0's turn is over, its send still pending.
  function OneLate(): State { OneSending().(entry := Some(Idle), open := {}, settled := [0]) }

  lemma TurnOver(events: seq<Event>)
    requires |events| >= 4 && StartsWithOne(events) && events[3] == TurnCompletes(0)
    ensures Run(events[..4]) == OneLate()
  {
    FirstThree(events);
    var s := OneSending();
    assert s.sent[0].msg == 0;
    assert s.settled + Current(s) == [0];
    AfterSnoc(events, 3, s, OneLate());
  }

  // ------------------------------------------------------------ a restart under a message

  /** A restart under a running message drops it: message 0 is nowhere, and nothing is left
   *  that could still settle it. */
  lemma RestartDropsTheRunningMessage(events: seq<Event>)
    requires events == [Accept, SpawnSucceeds, RunReported(0), SendResolves(0), Restarts]
    ensures var s := Run(events); s.next == 1 && Places(s)[0] == 0 && s.acts == map[] && s.carried == []
  {
    FirstThree(events);
    var s3 := OneSending();
    var s4 := s3.(acts := map[]);
    assert s3.acts - {0} == map[];
    AfterSnoc(events, 3, s3, s4);
    AfterSnoc(events, 4, s4, Step(s4, Restarts));
    assert events[..5] == events;
  }

  // ------------------------------------------------------------ a restart over a queue

  ghost predicate RestartsOverOne(events: seq<Event>) {
    |events| >= 5 && StartsWithOne(events) && events[3] == Accept && events[4] == Restarts
  }

  // Message 1 was queued behind message 0 and is carried.
  function OneCarried(): State {
    OneSending().(entry := None, open := {}, spawning := true, carried := [1], next := 2)
  }

  lemma ReachOneCarried(events: seq<Event>)
    requires RestartsOverOne(events)
    ensures Run(events[..5]) == OneCarried()
  {
    FirstThree(events);
    var s4 := OneSending().(entry := Some(Entry(true, Some(0), [1])), next := 2);
    assert [] + [1] == [1];
    AfterSnoc(events, 3, OneSending(), s4);
    AfterSnoc(events, 4, s4, OneCarried());
  }

  /** The fresh entry has the queue but stays idle; the next message accepted is started at
   *  once and overtakes it. */
  lemma RestartLetsTheNextOneOvertake(events: seq<Event>)
    requires events == [Accept, SpawnSucceeds, RunReported(0), Accept, Restarts, SpawnSucceeds, Accept]
    ensures Run(events[..6]).entry == Some(Entry(false, None, [1])) && Run(events[..6]).started == [0]
    ensures var s := Run(events); s.started == [0, 2] && Current(s) == [2] && Queue(s) == [1]
  {
    ReachOneCarried(events);
    var s6 := OneCarried().(entry := Some(Entry(false, None, [1])), epoch := 2, spawning := false, carried := []);
    SpawnHandsTheQueueOver(OneCarried());
    AfterSnoc(events, 5, OneCarried(), s6);
    AfterSnoc(events, 6, s6, Step(s6, Accept));
    assert events[..7] == events;
  }

  /** If the fresh entry cannot be spawned the queue is lost: message 1 is nowhere, and nothing
   *  is left that could still settle it. */
  lemma FailedRespawnLosesTheQueue(events: seq<Event>)
    requires events == [Accept, SpawnSucceeds, RunReported(0), Accept, Restarts, SpawnFails]
    ensures var s := Run(events); s.next == 2 && Held(s, 1) == 0 && 1 !in s.acts
  {
    ReachOneCarried(events);
    AfterSnoc(events, 5, OneCarried(), OneCarried().(spawning := false, carried := []));
    assert events[..6] == events;
  }

  // ------------------------------------------------------------ a send that fails late

  // Message 1 runs on the entry; message 0's send is as given.
  function Running(epoch: nat, acts: map<nat, Act>): State {
    OneLate().(entry := Some(Entry(true, Some(1), [])), epoch := epoch, acts := acts, open := {1},
               started := [0, 1], sent := [Handed(1, 0), Handed(epoch, 1)], next := 2)
  }

  // An idle entry takes message 1 and hands it over.
  lemma OneGoesOn(s: State)
    requires s.session && s.next == 1 && s.entry == Some(Idle) && s.open == {} && s.started == [0]
    requires s.sent == [Handed(1, 0)] && s.acts == map[0 := Act(1, Sending)]
    ensures Step(Step(s, Accept), RunReported(1))
         == s.(entry := Some(Entry(true, Some(1), [])), acts := map[0 := Act(1, Sending), 1 := Act(s.epoch, Sending)],
               open := {1}, started := [0, 1], sent := [Handed(1, 0), Handed(s.epoch, 1)], next := 2)
  {
    assert Step(s, Accept) == Start(s.(next := 2), 1);
  }

  function LateAndRunning(): State { Running(1, map[0 := Act(1, Sending), 1 := Act(1, Sending)]) }

  lemma ReachLateAndRunning(events: seq<Event>)
    requires |events| >= 6 && StartsWithOne(events) && events[3] == TurnCompletes(0)
    requires events[4] == Accept && events[5] == RunReported(1)
    ensures Run(events[..6]) == LateAndRunning()
  {
    TurnOver(events);
    OneGoesOn(OneLate());
    AfterSnoc(events, 4, OneLate(), Step(OneLate(), Accept));
    AfterSnoc(events, 5, Step(OneLate(), Accept), LateAndRunning());
  }

  // Message 0's send fails; the entry is freed under message 1.
  function FreedUnderOne(): State {
    Running(1, map[1 := Act(1, Sending)]).(entry := Some(Entry(false, Some(1), [])))
  }

  lemma LateFailureSteps()
    ensures Step(Step(LateAndRunning(), SendRejects(0)), FailureReported(0)) == FreedUnderOne()
  {
    var s := Running(1, map[0 := Act(1, Failing), 1 := Act(1, Sending)]);
    assert Step(LateAndRunning(), SendRejects(0)) == s;
    assert s.acts - {0} == map[1 := Act(1, Sending)];
  }

  lemma LateFailureFrees(events: seq<Event>)
    requires |events| >= 8 && StartsWithOne(events) && events[3] == TurnCompletes(0)
    requires events[4] == Accept && events[5] == RunReported(1)
    requires events[6] == SendRejects(0) && events[7] == FailureReported(0)
    ensures Run(events[..8]) == FreedUnderOne()
  {
    ReachLateAndRunning(events);
    LateFailureSteps();
    AfterSnoc(events, 6, LateAndRunning(), Step(LateAndRunning(), SendRejects(0)));
    AfterSnoc(events, 7, Step(LateAndRunning(), SendRejects(0)), FreedUnderOne());
  }

  /** A send that rejects after its turn completed frees the entry under the next message:
   *  the turns of messages 1 and 2 run at once. */
  lemma LateRejectionOverlapsSends(events: seq<Event>)
    requires events == [Accept, SpawnSucceeds, RunReported(0), TurnCompletes(0), Accept, RunReported(1),
                        SendRejects(0), FailureReported(0), Accept, RunReported(2)]
    ensures var s := Run(events); s.open == {1, 2} && 1 !in s.settled && Current(s) == [2]
  {
    LateFailureFrees(events);
    var s9 := Start(FreedUnderOne().(next := 3), 2);
    AfterSnoc(events, 8, FreedUnderOne(), s9);
    AfterSnoc(events, 9, s9, Hand(s9, 2));
    assert events[..10] == events;
  }

  // ------------------------------------------------------------ a send that outlives its entry

  ghost predicate RestartsIdle(events: seq<Event>) {
    && |events| >= 8 && StartsWithOne(events) && events[3] == TurnCompletes(0)
    && events[4] == Restarts && events[5] == SpawnSucceeds && events[6] == Accept && events[7] == RunReported(1)
  }

  // The next entry is there; message 0's send is still pending on the last one.
  function Restarted(): State { OneLate().(entry := Some(Idle), epoch := 2) }

  lemma ReachRestarted(events: seq<Event>)
    requires RestartsIdle(events)
    ensures Run(events[..6]) == Restarted()
  {
    TurnOver(events);
    var s5 := OneLate().(entry := None, spawning := true);
    AfterSnoc(events, 4, OneLate(), s5);
    AfterSnoc(events, 5, s5, Restarted());
  }

  lemma ReachZombieAndRunning(events: seq<Event>)
    requires RestartsIdle(events)
    ensures Run(events[..8]) == Running(2, map[0 := Act(1, Sending), 1 := Act(2, Sending)])
  {
    ReachRestarted(events);
    OneGoesOn(Restarted());
    AfterSnoc(events, 6, Restarted(), Step(Restarted(), Accept));
    AfterSnoc(events, 7, Step(Restarted(), Accept), Step(Step(Restarted(), Accept), RunReported(1)));
  }

  // Message 2 is queued behind message 1, and message 0's send has failed.
  function Queued(): State {
    Running(2, map[0 := Act(1, Failing), 1 := Act(2, Sending)]).(entry := Some(Entry(true, Some(1), [2])), next := 3)
  }

  lemma ZombieFails(events: seq<Event>)
    requires |events| >= 10 && RestartsIdle(events) && events[8] == Accept && events[9] == SendRejects(0)
    ensures Run(events[..10]) == Queued()
  {
    ReachZombieAndRunning(events);
    var s8 := Running(2, map[0 := Act(1, Sending), 1 := Act(2, Sending)]);
    var s9 := s8.(entry := Some(Entry(true, Some(1), [2])), next := 3);
    assert [] + [2] == [2];
    AfterSnoc(events, 8, s8, s9);
    AfterSnoc(events, 9, s9, Queued());
  }

  // The end of that `_sendNow` starts message 2 under message 1.
  function Overlapped(): State {
    var t := Queued();
    Start(t.(acts := map[1 := Act(2, Sending)], entry := Some(Entry(true, Some(1), []))), 2)
  }

  lemma ZombieDrains()
    ensures Step(Queued(), FailureReported(0)) == Overlapped()
  {
    assert Queued().acts - {0} == map[1 := Act(2, Sending)] && [2][1..] == [];
  }

  /** A `_sendNow` that outlives its entry drains the next one, also across a restart that was
   *  itself harmless: the turns of messages 1 and 2 run at once. */
  lemma ZombieOverlapsSends(events: seq<Event>)
    requires events == [Accept, SpawnSucceeds, RunReported(0), TurnCompletes(0), Restarts, SpawnSucceeds,
                        Accept, RunReported(1), Accept, SendRejects(0), FailureReported(0), RunReported(2)]
    ensures var s := Run(events); s.open == {1, 2} && 1 !in s.settled && Current(s) == [2]
  {
    ZombieFails(events);
    ZombieDrains();
    AfterSnoc(events, 10, Queued(), Overlapped());
    AfterSnoc(events, 11, Overlapped(), Hand(Overlapped(), 2));
    assert events[..12] == events;
  }

  // ------------------------------------------------------------ a turn_complete too many

  ghost predicate QueuesTwo(events: seq<Event>) {
    && |events| >= 7 && StartsWithOne(events) && events[3] == Accept && events[4] == Accept
    && events[5] == TurnCompletes(0) && events[6] == TurnCompletes(0)
  }

  // Messages 1 and 2 wait behind message 0.
  function TwoQueued(): State { OneSending().(entry := Some(Entry(true, Some(0), [1, 2])), next := 3) }

  lemma ReachTwoQueued(events: seq<Event>)
    requires QueuesTwo(events)
    ensures Run(events[..5]) == TwoQueued()
  {
    FirstThree(events);
    var s4 := OneSending().(entry := Some(Entry(true, Some(0), [1])), next := 2);
    assert [] + [1] == [1] && [1] + [2] == [1, 2];
    AfterSnoc(events, 3, OneSending(), s4);
    AfterSnoc(events, 4, s4, TwoQueued());
  }

  // Message 0 is settled and message 1 started.
  function OneReporting(): State {
    TwoQueued().(entry := Some(Entry(true, Some(1), [2])), open := {}, settled := [0], started := [0, 1],
                 acts := map[0 := Act(1, Sending), 1 := Act(1, Reporting)])
  }

  lemma FirstTurnComplete(events: seq<Event>)
    requires QueuesTwo(events)
    ensures Run(events[..6]) == OneReporting()
  {
    ReachTwoQueued(events);
    var s := TwoQueued();
    assert s.sent[0].msg == 0 && [1, 2][1..] == [2] && [] + [0] == [0];
    AfterSnoc(events, 5, s, OneReporting());
  }

  // Message 1 is settled too, before it was handed over, and message 2 started.
  function BothReporting(): State {
    OneReporting().(entry := Some(Entry(true, Some(2), [])), settled := [0, 1], started := [0, 1, 2],
                    acts := map[0 := Act(1, Sending), 1 := Act(1, Reporting), 2 := Act(1, Reporting)])
  }

  lemma SecondTurnComplete(events: seq<Event>)
    requires QueuesTwo(events)
    ensures Run(events[..7]) == BothReporting()
  {
    FirstTurnComplete(events);
    var s := OneReporting();
    assert s.sent[0].msg == 0 && [2][1..] == [] && s.open - {0} == {};
    AfterSnoc(events, 6, s, BothReporting());
  }

  /** A runtime that reports the end of message 0's turn twice settles message 1 before it was
   *  ever handed over; then 2 is handed over, and 1 after it. */
  lemma RepeatedTurnCompleteReordersSends(events: seq<Event>)
    requires events == [Accept, SpawnSucceeds, RunReported(0), Accept, Accept, TurnCompletes(0), TurnCompletes(0),
                        RunReported(2), RunReported(1)]
    ensures var s := Run(events);
      && s.sent == [Handed(1, 0), Handed(1, 2), Handed(1, 1)] && !SentInOrder(s.sent)
      && s.open == {1, 2} && 1 in s.settled
  {
    SecondTurnComplete(events);
    var s8 := Hand(BothReporting(), 2);
    AfterSnoc(events, 7, BothReporting(), s8);
    var s9 := Hand(s8, 1);
    AfterSnoc(events, 8, s8, s9);
    assert events[..9] == events;
    assert s9.sent == [Handed(1, 0), Handed(1, 2), Handed(1, 1)];
    assert s9.sent[1] == Handed(1, 2) && s9.sent[2] == Handed(1, 1);
  }
}
