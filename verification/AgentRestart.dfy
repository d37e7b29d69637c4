/** Where messages go in every run of `AgentQueue`, restarts, late failures and repeated
 * turn_completes included: each is in one place at most, and leaves them all in four cases. */
module AgentRestart {
  import opened Wrappers
  import opened AgentQueue

  function One(b: bool): nat { if b then 1 else 0 }

  function Count(ids: seq<nat>, id: nat): nat {
    if ids == [] then 0 else One(ids[0] == id) + Count(ids[1..], id)
  }

  lemma {:induction false} CountConcat(a: seq<nat>, b: seq<nat>)
    ensures forall id: nat :: Count(a + b, id) == Count(a, id) + Count(b, id)
  {
    if a == [] {
      assert a + b == b;
    } else {
      CountConcat(a[1..], b);
      assert (a + b)[0] == a[0] && (a + b)[1..] == a[1..] + b;
    }
  }

  lemma {:induction false} CountIn(a: seq<nat>)
    ensures forall id: nat :: id in a <==> Count(a, id) > 0
  {
    if a != [] {
      CountIn(a[1..]);
      assert a == [a[0]] + a[1..];
    }
  }

  lemma CountOne(x: nat)
    ensures forall id: nat :: Count([x], id) == One(x == id)
  {
    assert [x][1..] == [];
  }

  lemma CountSnoc(a: seq<nat>, x: nat)
    ensures forall id: nat :: Count(a + [x], id) == Count(a, id) + One(x == id)
  {
    CountConcat(a, [x]);
    CountOne(x);
  }

  // ------------------------------------------------------------- the places

  // How often the message is among those not yet started: waiting, carried over or queued.
  function Ahead(s: State, id: nat): nat {
    Count(s.waiters, id) + Count(s.carried, id) + Count(Queue(s), id)
  }

  // In how many places it is, with those before, current or settled.
  function Held(s: State, id: nat): nat {
    Ahead(s, id) + One(IsCurrent(s, id)) + Count(s.settled, id)
  }

  ghost predicate AtMostOnce(s: State) { forall id: nat :: Held(s, id) <= One(id < s.next) }

  ghost predicate ActsAreStarted(s: State) {
    && (forall m :: m in s.acts ==> m < s.next && Ahead(s, m) == 0 && s.acts[m].epoch <= s.epoch)
    && (forall m :: m in s.acts && IsCurrent(s, m) ==> s.acts[m].epoch == s.epoch)
  }

  ghost predicate SlotFits(s: State) {
    && (s.entry.Some? ==> s.session && !s.spawning)
    && (!s.spawning ==> s.waiters == [] && s.carried == [])
  }

  ghost predicate Loose(s: State) { SlotFits(s) && AtMostOnce(s) && ActsAreStarted(s) }

  predicate IsOwn(s: State, msg: nat) { Mapped(s, msg) && IsCurrent(s, msg) }

  /** The message leaves all places: it is the current one at a restart, it is carried when the
   *  next spawn fails, or it is still current when another one is started, by a caller that
   *  finds the entry free or by the end of a failed send that drains the queue. */
  predicate Drops(s: State, ev: Event, id: nat) {
    match ev
    case Restarts => s.session && IsCurrent(s, id)
    case SpawnFails => s.spawning && id in s.carried
    case Accept => s.session && IsCurrent(s, id) && !s.entry.value.busy
    case FailureReported(msg) => InPhase(s, msg, Failing) && !IsOwn(s, msg) && IsCurrent(s, id) && Queue(s) != []
    case _ => false
  }

  // A dropped message is settled after all when its send fails.
  predicate Revives(s: State, ev: Event, id: nat) {
    ev == FailureReported(id) && InPhase(s, id, Failing) && Held(s, id) == 0
  }

  predicate Arrives(s: State, ev: Event, id: nat) {
    (ev.Accept? || ev.AcceptUnavailable?) && s.session && id == s.next
  }

  ghost predicate Accounts(s: State, ev: Event, t: State) {
    forall id: nat ::
      Held(t, id) == Held(s, id) + One(Arrives(s, ev, id)) + One(Revives(s, ev, id)) - One(Drops(s, ev, id))
  }

  // ---------------------------------------------------------------- starting and draining

  // Fewer activations, and nothing new ahead or current.
  lemma FewerActs(s: State, t: State)
    requires ActsAreStarted(s) && s.next <= t.next && t.epoch == s.epoch
    requires forall m :: m in t.acts ==> m in s.acts && t.acts[m].epoch == s.acts[m].epoch
    requires forall m: nat :: m < s.next ==> Ahead(t, m) <= Ahead(s, m)
    requires forall m: nat :: m < s.next && IsCurrent(t, m) ==> IsCurrent(s, m)
    ensures ActsAreStarted(t)
  {
  }

  lemma NothingAdded(s: State, t: State)
    requires AtMostOnce(s) && s.next <= t.next
    requires forall id: nat :: Held(t, id) <= Held(s, id) + One(s.next == id < t.next)
    ensures AtMostOnce(t)
  {
    forall id: nat ensures Held(t, id) <= One(id < t.next) { assert Held(s, id) <= One(id < s.next); }
  }

  // A message in hand is started under whatever is current.
  lemma StartMoves(s: State, msg: nat)
    requires s.entry.Some? && Held(s, msg) == 0
    ensures var t := Start(s, msg);
      && (forall id: nat :: Ahead(t, id) == Ahead(s, id))
      && (forall id: nat :: Held(t, id) == Held(s, id) + One(id == msg) - One(IsCurrent(s, id)))
  {
  }

  lemma StartFits(s: State, msg: nat)
    requires s.entry.Some? && ActsAreStarted(s) && Held(s, msg) == 0 && msg < s.next
    ensures ActsAreStarted(Start(s, msg))
  {
    StartMoves(s, msg);
  }

  // The head of the queue in hand.
  function HeadOut(s: State): State
    requires s.entry.Some? && Queue(s) != []
  {
    s.(entry := Some(s.entry.value.(queue := Queue(s)[1..])))
  }

  lemma HeadMoves(s: State)
    requires s.entry.Some? && Queue(s) != []
    ensures forall id: nat :: Ahead(HeadOut(s), id) == Ahead(s, id) - One(id == Queue(s)[0])
    ensures forall id: nat :: Held(HeadOut(s), id) == Held(s, id) - One(id == Queue(s)[0])
  {
  }

  lemma DrainAccounts(s: State)
    requires Loose(s)
    ensures Loose(Drain(s))
    ensures forall id: nat :: Held(Drain(s), id) == Held(s, id) - One(Queue(s) != [] && IsCurrent(s, id))
  {
    if s.entry.Some? && Queue(s) != [] {
      var t, msg := HeadOut(s), Queue(s)[0];
      HeadMoves(s);
      FewerActs(s, t);
      NothingAdded(s, t);
      StartMoves(t, msg);
      StartFits(t, msg);
    }
  }

  function Freed(s: State): State
    requires s.entry.Some?
  {
    s.(entry := Some(s.entry.value.(busy := false, current := None)), settled := s.settled + Current(s))
  }

  // Nothing moves but from the current place to the settled ones.
  lemma ReleaseAccounts(s: State)
    requires Loose(s) && s.entry.Some?
    ensures Loose(Release(s)) && forall id: nat :: Held(Release(s), id) == Held(s, id)
  {
    var t := Freed(s);
    SettlingCurrent(s);
    FewerActs(s, t);
    NothingAdded(s, t);
    DrainAccounts(t);
  }

  lemma SettlingCurrent(s: State)
    ensures forall id: nat ::
              Count(s.settled + Current(s), id) == Count(s.settled, id) + One(IsCurrent(s, id))
  {
    if Current(s) == [] { assert s.settled + [] == s.settled; } else { CountSnoc(s.settled, Current(s)[0]); }
  }

  lemma DropAccounts(s: State)
    requires Loose(s) && s.entry.Some?
    ensures Loose(DropEntry(s)) && forall id: nat :: Held(DropEntry(s), id) == Held(s, id)
  {
    SettlingCurrent(s);
    CountConcat(s.settled + Current(s), Queue(s));
    FewerActs(s, DropEntry(s));
    NothingAdded(s, DropEntry(s));
  }

  // ---------------------------------------------------------------- the end of a spawn

  lemma {:induction false} WaitersQueue(s: State)
    requires s.entry.Some? && s.entry.value.busy
    ensures DeliverWaiters(s)
         == s.(waiters := [], entry := Some(s.entry.value.(queue := Queue(s) + s.waiters)))
    decreases |s.waiters|
  {
    if s.waiters == [] {
      assert Queue(s) + s.waiters == Queue(s) && s.(waiters := []) == s;
    } else {
      var t := Deliver(s.(waiters := s.waiters[1..]), s.waiters[0]);
      WaitersQueue(t);
      assert Queue(s) + [s.waiters[0]] + s.waiters[1..] == Queue(s) + s.waiters;
    }
  }

  /** What a spawn that succeeds makes of the queue a restart held back and of the callers that
   *  waited for it: the queue is in the new entry, whole and in order, behind the first of the
   *  callers and before the others.  Without a caller the entry stays idle. */
  lemma SpawnHandsTheQueueOver(s: State)
    requires s.spawning && s.session
    ensures var t := Step(s, SpawnSucceeds);
      && t.entry == (if s.waiters == [] then Some(Entry(false, None, s.carried))
                     else Some(Entry(true, Some(s.waiters[0]), s.carried + s.waiters[1..])))
      && t.started == (if s.waiters == [] then s.started else s.started + [s.waiters[0]])
      && t.acts == (if s.waiters == [] then s.acts else s.acts[s.waiters[0] := Act(t.epoch, Reporting)])
      && t == s.(spawning := false, waiters := [], carried := [], epoch := s.epoch + 1,
                 entry := t.entry, started := t.started, acts := t.acts)
  {
    var t := s.(spawning := false, carried := [], entry := Some(Idle.(queue := s.carried)), epoch := s.epoch + 1);
    if s.waiters != [] { WaitersQueue(Deliver(t.(waiters := t.waiters[1..]), t.waiters[0])); }
  }

  lemma SpawnMoves(s: State)
    requires SlotFits(s) && s.spawning && s.session
    ensures var t := Step(s, SpawnSucceeds);
      && (forall id: nat :: Held(t, id) == Held(s, id))
      && (forall id: nat :: Ahead(t, id) == Ahead(s, id) - One(s.waiters != [] && id == s.waiters[0]))
  {
    SpawnHandsTheQueueOver(s);
    if s.waiters != [] { CountConcat(s.carried, s.waiters[1..]); }
  }

  lemma SpawnAccounts(s: State)
    requires Loose(s) && s.spawning && s.session
    ensures var t := Step(s, SpawnSucceeds); Loose(t) && forall id: nat :: Held(t, id) == Held(s, id)
  {
    SpawnHandsTheQueueOver(s);
    SpawnMoves(s);
    if s.waiters != [] { assert Held(s, s.waiters[0]) == 1; }
  }

  lemma SpawnSettles(s: State, ready: bool)
    requires Loose(s) && s.spawning && !(ready && s.session)
    ensures var t := SpawnStep(s, ready);
      Loose(t) && forall id: nat :: Held(t, id) == Held(s, id) - One(!ready && id in s.carried)
  {
    var t := SpawnStep(s, ready);
    CountIn(s.carried);
    CountConcat(s.settled, s.waiters);
    if ready { CountConcat(s.settled + s.waiters, s.carried); }
    else {
      assert s.settled + s.waiters + [] == s.settled + s.waiters;
      assert forall id: nat :: Count(s.carried, id) <= Held(s, id) <= 1;
    }
    FewerActs(s, t);
    NothingAdded(s, t);
  }

  // ---------------------------------------------------------------- the other events

  // The new message joins those ahead.
  lemma JoinAccounts(s: State)
    requires Loose(s) && s.session && (s.entry.Some? ==> s.entry.value.busy)
    ensures Loose(AcceptStep(s))
    ensures forall id: nat :: Held(AcceptStep(s), id) == Held(s, id) + One(id == s.next)
  {
    var t := AcceptStep(s);
    CountSnoc(s.waiters, s.next);
    CountSnoc(Queue(s), s.next);
    assert forall id: nat :: Ahead(t, id) == Ahead(s, id) + One(id == s.next);
    FewerActs(s, t);
    NothingAdded(s, t);
  }

  lemma AcceptAccounts(s: State)
    requires Loose(s) && s.session
    ensures Loose(AcceptStep(s)) && Accounts(s, Accept, AcceptStep(s))
  {
    if s.entry.None? || s.entry.value.busy {
      JoinAccounts(s);
    } else {
      var n := s.(next := s.next + 1);
      assert Held(s, s.next) == 0;
      FewerActs(s, n);
      NothingAdded(s, n);
      StartMoves(n, s.next);
      StartFits(n, s.next);
    }
  }

  lemma UnavailableAccounts(s: State)
    requires Loose(s) && s.session
    ensures var t := Step(s, AcceptUnavailable); Loose(t) && Accounts(s, AcceptUnavailable, t)
  {
    CountSnoc(s.settled, s.next);
    FewerActs(s, Step(s, AcceptUnavailable));
    NothingAdded(s, Step(s, AcceptUnavailable));
  }

  lemma RestartAccounts(s: State)
    requires Loose(s) && s.session && s.entry.Some?
    ensures Loose(RestartStep(s)) && Accounts(s, Restarts, RestartStep(s))
  {
    FewerActs(s, RestartStep(s));
    NothingAdded(s, RestartStep(s));
  }

  // No message moves, and activations do not increase.
  lemma FrameAccounts(s: State, t: State)
    requires Loose(s)
    requires t == s.(acts := t.acts, open := t.open, sent := t.sent)
    requires forall m :: m in t.acts ==> m in s.acts && t.acts[m].epoch == s.acts[m].epoch
    ensures Loose(t) && forall id: nat :: Held(t, id) == Held(s, id)
  {
    FewerActs(s, t);
    NothingAdded(s, t);
  }

  lemma TurnCompletesAccounts(s: State, msg: nat)
    requires Loose(s) && WasSent(s, msg) && s.entry.Some?
    ensures var t := Step(s, TurnCompletes(msg)); Loose(t) && forall id: nat :: Held(t, id) == Held(s, id)
  {
    var u := s.(open := s.open - {msg});
    FrameAccounts(s, u);
    ReleaseAccounts(u);
  }

  lemma OwnFailureAccounts(s: State, msg: nat)
    requires Loose(s) && InPhase(s, msg, Failing) && IsOwn(s, msg)
    ensures Loose(FailStep(s, msg)) && forall id: nat :: Held(FailStep(s, msg), id) == Held(s, id)
  {
    var t := s.(acts := s.acts - {msg});
    FrameAccounts(s, t);
    ReleaseAccounts(t);
  }

  // Settled unless it was, and its entry freed.
  function Settled(s: State, msg: nat): State
    requires msg in s.acts
  {
    s.(acts := s.acts - {msg},
       settled := if msg in s.settled then s.settled else s.settled + [msg],
       entry := if Mapped(s, msg) then Some(s.entry.value.(busy := false)) else s.entry)
  }

  lemma SettledMoves(s: State, msg: nat)
    requires Loose(s) && InPhase(s, msg, Failing) && !IsOwn(s, msg)
    ensures var t := Settled(s, msg);
      && Loose(t) && Queue(t) == Queue(s) && FailStep(s, msg) == Drain(t)
      && (forall id: nat :: IsCurrent(t, id) <==> IsCurrent(s, id))
      && forall id: nat :: Held(t, id) == Held(s, id) + One(Revives(s, FailureReported(msg), id))
  {
    var t := Settled(s, msg);
    CountIn(s.settled);
    CountSnoc(s.settled, msg);
    assert !IsCurrent(s, msg) && Held(s, msg) == Count(s.settled, msg);
    FewerActs(s, t);
    forall id: nat ensures Held(t, id) <= One(id < t.next) { assert Held(s, id) <= One(id < s.next); }
  }

  lemma OtherFailureAccounts(s: State, msg: nat)
    requires Loose(s) && InPhase(s, msg, Failing) && !IsOwn(s, msg)
    ensures Loose(FailStep(s, msg)) && Accounts(s, FailureReported(msg), FailStep(s, msg))
  {
    SettledMoves(s, msg);
    DrainAccounts(Settled(s, msg));
  }

  lemma FailureAccounts(s: State, msg: nat)
    requires Loose(s) && InPhase(s, msg, Failing)
    ensures Loose(FailStep(s, msg)) && Accounts(s, FailureReported(msg), FailStep(s, msg))
  {
    if IsOwn(s, msg) { OwnFailureAccounts(s, msg); } else { OtherFailureAccounts(s, msg); }
  }

  lemma StopAccounts(s: State)
    requires Loose(s)
    ensures var t := Step(s, Stops); Loose(t) && forall id: nat :: Held(t, id) == Held(s, id)
  {
    var u := if s.entry.Some? then DropEntry(s) else s;
    if s.entry.Some? { DropAccounts(s); }
    FewerActs(u, Step(s, Stops));
    NothingAdded(u, Step(s, Stops));
  }

  lemma ActAccounts(s: State, ev: Event)
    requires Loose(s) && (ev.RunReported? || ev.SendResolves? || ev.SendRejects?)
    ensures Loose(Step(s, ev)) && Accounts(s, ev, Step(s, ev))
  {
    FrameAccounts(s, Step(s, ev));
  }

  lemma SpawnEndAccounts(s: State, ready: bool)
    requires Loose(s) && s.spawning
    ensures var ev := if ready then SpawnSucceeds else SpawnFails;
      Loose(Step(s, ev)) && Accounts(s, ev, Step(s, ev))
  {
    if ready && s.session { SpawnAccounts(s); } else { SpawnSettles(s, ready); }
  }

  // Nothing arrives, nothing leaves.
  lemma Steady(s: State, ev: Event, t: State)
    requires !ev.Accept? && !ev.AcceptUnavailable? && !ev.FailureReported? && !ev.SpawnFails? && !ev.Restarts?
    requires forall id: nat :: Held(t, id) == Held(s, id)
    ensures Accounts(s, ev, t)
  {
  }

  /** Each event adds what arrives, takes out exactly what it drops, and moves the rest. */
  lemma StepAccounts(s: State, ev: Event)
    requires Loose(s)
    ensures Loose(Step(s, ev)) && Accounts(s, ev, Step(s, ev))
  {
    match ev
    case Accept => if s.session { AcceptAccounts(s); }
    case AcceptUnavailable => if s.session { UnavailableAccounts(s); }
    case SpawnSucceeds => if s.spawning { SpawnEndAccounts(s, true); }
    case SpawnFails => if s.spawning { SpawnEndAccounts(s, false); }
    case FailureReported(msg) => if InPhase(s, msg, Failing) { FailureAccounts(s, msg); }
    case TurnCompletes(msg) =>
      if WasSent(s, msg) && s.entry.Some? { TurnCompletesAccounts(s, msg); Steady(s, ev, Step(s, ev)); }
    case Exits => if s.entry.Some? { DropAccounts(s); Steady(s, ev, Step(s, ev)); }
    case Stops => StopAccounts(s); Steady(s, ev, Step(s, ev));
    case Restarts => if s.session && s.entry.Some? { RestartAccounts(s); }
    case _ => ActAccounts(s, ev);
  }

  lemma {:induction false} RunIsLoose(events: seq<Event>)
    ensures Loose(Run(events))
    decreases |events|
  {
    if events != [] {
      RunIsLoose(events[..|events| - 1]);
      StepAccounts(Run(events[..|events| - 1]), events[|events| - 1]);
    }
  }

  // ------------------------------------------------------------------ theorems

  /** Over every run, harmless or not: a message is in one place at most, and the next event
   *  takes it out of all of them exactly in the four cases of `Drops`. */
  lemma MessagesLeaveExactlyWhenDropped(events: seq<Event>, ev: Event, id: nat)
    requires Held(Run(events), id) != 0
    ensures Held(Run(events), id) == 1 && id < Run(events).next
    ensures Held(Run(events + [ev]), id) == 0 <==> Drops(Run(events), ev, id)
  {
    RunIsLoose(events);
    assert (events + [ev])[..|events|] == events;
    StepAccounts(Run(events), ev);
    RunIsLoose(events + [ev]);
    assert Held(Run(events), id) <= One(id < Run(events).next);
  }

  ghost predicate NeverDropped(events: seq<Event>, id: nat)
    decreases |events|
  {
    events == [] ||
      (NeverDropped(events[..|events| - 1], id) && !Drops(Run(events[..|events| - 1]), events[|events| - 1], id))
  }

  lemma NextCounts(s: State, ev: Event)
    ensures Step(s, ev).next == s.next + One((ev.Accept? || ev.AcceptUnavailable?) && s.session)
  {
    if ev.SpawnSucceeds? && s.spawning && s.session { SpawnHandsTheQueueOver(s); }
  }

  lemma HeldStep(s: State, ev: Event, id: nat)
    requires Loose(s) && Held(s, id) == One(id < s.next) && !Drops(s, ev, id)
    ensures Held(Step(s, ev), id) == One(id < Step(s, ev).next)
  {
    StepAccounts(s, ev);
    NextCounts(s, ev);
    assert InPhase(s, id, Failing) ==> id < s.next;
  }

  /** Over every run: an accepted message that was never dropped is in exactly one place. */
  lemma {:induction false} HeldUnlessDropped(events: seq<Event>, id: nat)
    requires NeverDropped(events, id)
    ensures Held(Run(events), id) == One(id < Run(events).next)
    decreases |events|
  {
    if events != [] {
      var front, last := events[..|events| - 1], events[|events| - 1];
      HeldUnlessDropped(front, id);
      RunIsLoose(front);
      HeldStep(Run(front), last, id);
    }
  }

  // ------------------------------------------------------------- across a restart

  ghost predicate NoSpawnEnds(events: seq<Event>) {
    forall i :: 0 <= i < |events| ==> !events[i].SpawnSucceeds? && !events[i].SpawnFails?
  }

  function RunFrom(s: State, events: seq<Event>): State
    decreases |events|
  {
    if events == [] then s else Step(RunFrom(s, events[..|events| - 1]), events[|events| - 1])
  }

  // While a spawn is under way the carried queue stays and only later messages wait for it.
  ghost predicate Carries(s: State, t: State) {
    && t.spawning && t.entry.None? && t.carried == s.carried && s.next <= t.next
    && s.waiters <= t.waiters && (forall i :: |s.waiters| <= i < |t.waiters| ==> t.waiters[i] >= s.next)
  }

  lemma CarriesOn(s: State, t: State, ev: Event)
    requires Carries(s, t) && !ev.SpawnSucceeds? && !ev.SpawnFails?
    ensures Carries(s, Step(t, ev))
  {
  }

  lemma {:induction false} CarriedStays(s: State, more: seq<Event>)
    requires s.spawning && s.entry.None? && NoSpawnEnds(more)
    ensures Carries(s, RunFrom(s, more))
    decreases |more|
  {
    if more != [] {
      CarriedStays(s, more[..|more| - 1]);
      CarriesOn(s, RunFrom(s, more[..|more| - 1]), more[|more| - 1]);
    }
  }

  /** Over every run: a restart takes nothing out of all places but the message that is running,
   *  and when the fresh entry is there, whatever else happened meanwhile, the messages that
   *  were queued are its queue, in order and before all later ones but the first.  If the agent
   *  was stopped meanwhile they are settled instead. */
  lemma QueueSurvivesRestart(events: seq<Event>, more: seq<Event>)
    requires Run(events).session && Run(events).entry.Some? && NoSpawnEnds(more)
    ensures var s := Run(events); var r := Step(s, Restarts);
      var u := RunFrom(r, more); var t := Step(u, SpawnSucceeds);
      && (forall id: nat :: Held(r, id) == Held(s, id) - One(IsCurrent(s, id)))
      && (forall i :: 0 <= i < |u.waiters| ==> u.waiters[i] >= s.next)
      && (u.session ==>
            && t.entry.Some? && Queue(s) <= Queue(t)
            && Current(t) + Queue(t)[|Queue(s)|..] == u.waiters
            && (t.entry.value.busy <==> u.waiters != []))
      && (!u.session ==> t.entry.None? && t.settled == u.settled + u.waiters + Queue(s))
  {
    var s, r := Run(events), Step(Run(events), Restarts);
    RunIsLoose(events);
    RestartAccounts(s);
    CarriedStays(r, more);
    var u := RunFrom(r, more);
    if u.session {
      SpawnHandsTheQueueOver(u);
      if u.waiters != [] { assert [u.waiters[0]] + u.waiters[1..] == u.waiters; }
    }
  }

  /** The fresh entry starts messages in acceptance order exactly when nobody waited for it or
   *  nothing was carried: otherwise the first who waited overtakes the queue. */
  lemma SpawnKeepsOrderExactlyWhen(s: State)
    requires s.spawning && s.session && Ascending(s.started + s.carried + s.waiters)
    ensures var t := Step(s, SpawnSucceeds);
      Ascending(t.started + Queue(t)) <==> s.carried == [] || s.waiters == []
  {
    SpawnHandsTheQueueOver(s);
    if s.carried == [] {
      WaitersInTurn(s.started, s.waiters);
    } else if s.waiters == [] {
      assert s.started + s.carried + [] == s.started + s.carried;
    } else {
      FirstWaiterOvertakes(s.started, s.carried, s.waiters);
    }
  }

  lemma WaitersInTurn(started: seq<nat>, waiters: seq<nat>)
    ensures started + [] + waiters == started + waiters
    ensures waiters == [] ==> started + [] == started + waiters
    ensures waiters != [] ==> started + [waiters[0]] + ([] + waiters[1..]) == started + waiters
  {
  }

  lemma FirstWaiterOvertakes(started: seq<nat>, carried: seq<nat>, waiters: seq<nat>)
    requires carried != [] && waiters != [] && Ascending(started + carried + waiters)
    ensures !Ascending(started + [waiters[0]] + (carried + waiters[1..]))
  {
    var p, q := started + carried + waiters, started + [waiters[0]] + (carried + waiters[1..]);
    assert p[|started|] == carried[0] && p[|started| + |carried|] == waiters[0];
    assert q[|started|] == waiters[0] && q[|started| + 1] == carried[0];
  }

  // ------------------------------------------------------------------- progress

  // The entry is idle, or its current message is about to be handed over.
  predicate IsReady(s: State) {
    && s.session && s.entry.Some?
    && match s.entry.value.current
       case None => s.entry.value == Idle
       case Some(k) => s.entry.value.busy && InPhase(s, k, Reporting)
  }

  lemma RunFromAppend(s: State, events: seq<Event>, more: seq<Event>)
    ensures RunFrom(s, events + more) == RunFrom(RunFrom(s, events), more)
    decreases |more|
  {
    if more == [] {
      assert events + more == events;
    } else {
      assert (events + more)[..|events + more| - 1] == events + more[..|more| - 1];
      RunFromAppend(s, events, more[..|more| - 1]);
    }
  }

  lemma RunTwo(s: State, a: Event, b: Event)
    ensures RunFrom(s, [a, b]) == Step(Step(s, a), b)
  {
    assert [a, b][..1] == [a] && [a][..0] == [];
    assert RunFrom(s, [a]) == Step(s, a);
  }

  // One turn: the message is handed over and its turn completes.
  lemma TurnSettlesItsMessage(s: State, k: nat) returns (turn: seq<Event>, t: State)
    requires IsReady(s) && Current(s) == [k]
    ensures t == RunFrom(s, turn) && IsReady(t)
    ensures t.settled == s.settled + [k] && t.next == s.next && t.waiters == s.waiters
    ensures Current(t) + Queue(t) == Queue(s)
    ensures Queue(s) == [] ==> t.entry == Some(Idle)
    ensures Queue(s) != [] ==> Current(t) != [] && |Queue(t)| < |Queue(s)|
  {
    turn := [RunReported(k), TurnCompletes(k)];
    RunTwo(s, RunReported(k), TurnCompletes(k));
    var u := Step(s, RunReported(k));
    assert u.sent[|u.sent| - 1].msg == k;
    t := Step(u, TurnCompletes(k));
    assert Queue(s) != [] ==> Queue(s) == [Queue(s)[0]] + Queue(s)[1..];
  }

  /** Turns that complete, one after the other, settle all that an entry holds, in order, and
   *  leave it idle. */
  lemma {:induction false} TurnsSettleTheQueue(s: State) returns (events: seq<Event>, t: State)
    requires IsReady(s)
    ensures t == RunFrom(s, events) && t.entry == Some(Idle) && t.next == s.next && t.waiters == s.waiters
    ensures t.settled == s.settled + (Current(s) + Queue(s))
    decreases |Queue(s)|
  {
    if Current(s) == [] {
      events, t := [], s;
      SettledSoFar(s.settled, [], []);
    } else {
      var k := Current(s)[0];
      events, t := TurnSettlesItsMessage(s, k);
      SettledSoFar(s.settled, [k], Queue(s));
      if Queue(s) != [] {
        var turn, u, rest := events, t, [];
        rest, t := TurnsSettleTheQueue(u);
        RunFromAppend(s, turn, rest);
        events := turn + rest;
      }
    }
  }

  lemma SettledSoFar(settled: seq<nat>, current: seq<nat>, queue: seq<nat>)
    ensures settled + current + queue == settled + (current + queue)
    ensures queue == [] ==> settled + current == settled + (current + queue)
    ensures current + queue == [] ==> settled == settled + (current + queue)
  {
  }

  /** In every safe run, a spawn that succeeds lets all who waited for it through, one turn
   *  after the other, in the order they came. */
  lemma SpawnServesEveryWaiter(s: State) returns (events: seq<Event>)
    requires Inv(s) && s.spawning && s.session
    ensures var t := RunFrom(Step(s, SpawnSucceeds), events);
      t.entry == Some(Idle) && t.settled == s.settled + s.waiters && t.waiters == []
  {
    var u := Step(s, SpawnSucceeds);
    SpawnHandsTheQueueOver(s);
    assert s.waiters == [] || s.waiters == [s.waiters[0]] + ([] + s.waiters[1..]);
    var t;
    events, t := TurnsSettleTheQueue(u);
    assert Current(u) + Queue(u) == s.waiters;
  }

  /** When the runtime exits or the agent is stopped, all that the entry holds is settled and
   *  the entry is gone. */
  lemma ExitsAndStopsSettleAll(s: State, ev: Event, id: nat)
    requires (ev.Exits? || ev.Stops?) && (id in Current(s) || id in Queue(s))
    ensures var t := Step(s, ev); id in t.settled && t.entry.None? && t.open == {}
  {
  }
}
