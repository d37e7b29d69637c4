/** Which messages a bridge passes on, told from the events alone: the ones it hears while it
 * leads, and the first hundred it hears while it knows no role, if what it learns next is that
 * it leads. */
module BridgeDispatch {
  import opened Leader

  predicate IsHuman(e: BridgeEvent) { e.Message? && e.human }

  // What the bridge was last told, unless it has lost its gateway since.
  datatype Role = Unknown | Told(leads: bool)

  function RoleAfter(events: seq<BridgeEvent>): Role {
    if events == [] then Unknown
    else
      match events[|events| - 1]
      case LeaderStatus(leads) => Told(leads)
      case GatewayCloses => Unknown
      case Message(_, _) => RoleAfter(events[..|events| - 1])
  }

  function Humans(events: seq<BridgeEvent>): seq<Msg> {
    if events == [] then []
    else
      var e := events[|events| - 1];
      Humans(events[..|events| - 1]) + (if IsHuman(e) then [e.m] else [])
  }

  // The human messages since the role last changed, was confirmed or was lost.
  function Since(events: seq<BridgeEvent>): seq<Msg> {
    if events == [] || !events[|events| - 1].Message? then []
    else
      var e := events[|events| - 1];
      Since(events[..|events| - 1]) + (if e.human then [e.m] else [])
  }

  // The first thing the bridge learns of its role from position `k` on is that it leads.
  predicate LeadsNext(events: seq<BridgeEvent>, k: nat)
    decreases |events| - k
  {
    k < |events| && (events[k] == LeaderStatus(true) || (events[k].Message? && LeadsNext(events, k + 1)))
  }

  // Of all the events, the one at `n` is a message that is passed on, then or later.
  predicate PassedOn(events: seq<BridgeEvent>, n: nat)
    requires n < |events|
  {
    IsHuman(events[n]) &&
    match RoleAfter(events[..n])
    case Told(leads) => leads
    case Unknown => |Since(events[..n])| < MAX_BUFFERED && LeadsNext(events, n + 1)
  }

  function Own(events: seq<BridgeEvent>, n: nat): seq<Msg>
    requires n < |events|
  {
    if PassedOn(events, n) then [events[n].m] else []
  }

  // The messages passed on, among the first `n` events, in their order.
  function Picked(events: seq<BridgeEvent>, n: nat): seq<Msg>
    requires n <= |events|
  {
    if n == 0 then []
    else Picked(events, n - 1) + Own(events, n - 1)
  }

  function FirstOf(ms: seq<Msg>): seq<Msg> { if |ms| <= MAX_BUFFERED then ms else ms[..MAX_BUFFERED] }

  // ---------------------------------------------------------------- the buffer and the role

  /** The flags are the last thing the bridge was told.  While it knows no role, its buffer is
   *  the first hundred human messages heard since, and nothing is missing from them. */
  lemma {:induction false} BufferIsTheFirstHundred(events: seq<BridgeEvent>)
    ensures var b := BridgeRun(events);
      && (b.leaderKnown <==> RoleAfter(events) != Unknown)
      && (b.isLeader <==> RoleAfter(events) == Told(true))
      && b.pending == (if RoleAfter(events) == Unknown then FirstOf(Since(events)) else [])
      && b.received == Humans(events)
    decreases |events|
  {
    if events != [] { BufferIsTheFirstHundred(events[..|events| - 1]); }
  }

  // ---------------------------------------------------------------- one event more

  lemma {:induction false} LeadsNextSnoc(events: seq<BridgeEvent>, e: BridgeEvent, k: nat)
    requires k <= |events|
    ensures LeadsNext(events + [e], k) <==>
              LeadsNext(events, k) || (e == LeaderStatus(true) && OnlyMessages(events, k))
    decreases |events| - k
  {
    var all := events + [e];
    if k < |events| {
      assert all[k] == events[k];
      LeadsNextSnoc(events, e, k + 1);
    } else {
      assert all[k] == e;
    }
  }

  predicate OnlyMessages(events: seq<BridgeEvent>, k: nat) {
    forall i :: k <= i < |events| ==> events[i].Message?
  }

  // Where nothing but messages follows, role and messages heard are those of the end.
  lemma {:induction false} SameSegment(events: seq<BridgeEvent>, n: nat)
    requires n <= |events|
    ensures OnlyMessages(events, n) ==> RoleAfter(events[..n]) == RoleAfter(events)
    ensures !OnlyMessages(events, n) ==> exists i :: n <= i < |events| && !events[i].Message?
    decreases |events|
  {
    if n == |events| {
      assert events[..n] == events;
    } else {
      var front := events[..|events| - 1];
      SameSegment(front, n);
      assert front[..n] == events[..n];
    }
  }

  lemma PassedOnSnoc(events: seq<BridgeEvent>, e: BridgeEvent, n: nat)
    requires n < |events|
    ensures PassedOn(events + [e], n) <==>
      || PassedOn(events, n)
      || (e == LeaderStatus(true) && IsHuman(events[n]) && OnlyMessages(events, n + 1)
          && RoleAfter(events[..n]) == Unknown && |Since(events[..n])| < MAX_BUFFERED)
  {
    assert (events + [e])[..n] == events[..n] && (events + [e])[n] == events[n];
    LeadsNextSnoc(events, e, n + 1);
  }

  // An event that tells of no leadership adds nothing to what came before.
  lemma {:induction false} PickedBefore(events: seq<BridgeEvent>, e: BridgeEvent, n: nat)
    requires n <= |events| && (e == LeaderStatus(true) ==> RoleAfter(events) != Unknown)
    ensures Picked(events + [e], n) == Picked(events, n)
  {
    if n != 0 {
      PickedBefore(events, e, n - 1);
      PassedOnSnoc(events, e, n - 1);
      SameSegment(events, n);
      assert OnlyMessages(events, n) && events[n - 1].Message? ==> OnlyMessages(events, n - 1);
      SameSegment(events, n - 1);
      assert (events + [e])[n - 1] == events[n - 1];
    }
  }

  lemma FirstOfSnoc(heard: seq<Msg>, m: Msg)
    ensures FirstOf(heard + [m]) == if |heard| < MAX_BUFFERED then FirstOf(heard) + [m] else FirstOf(heard)
  {
  }

  // What the event at `n` adds once the bridge has been told that it leads: in the last
  // segment a message that fits the buffer, before that what it added anyway.
  lemma LeadingAdds(events: seq<BridgeEvent>, n: nat)
    requires n < |events| && RoleAfter(events) == Unknown
    ensures var heard := Since(events[..n]); var own := Own(events + [LeaderStatus(true)], n);
      if OnlyMessages(events, n)
      then OnlyMessages(events, n + 1) && Own(events, n) == []
           && FirstOf(Since(events[..n + 1])) == FirstOf(heard) + own
      else own == Own(events, n) && (OnlyMessages(events, n + 1) ==> Since(events[..n + 1]) == [])
  {
    PassedOnSnoc(events, LeaderStatus(true), n);
    assert events[..n + 1][..n] == events[..n] && events[..n + 1][n] == events[n];
    assert (events + [LeaderStatus(true)])[n] == events[n];
    assert OnlyMessages(events, n) <==> OnlyMessages(events, n + 1) && events[n].Message?;
    if OnlyMessages(events, n) {
      SameSegment(events, n);
      NotYetPassedOn(events, n);
      FirstOfSnoc(Since(events[..n]), events[n].m);
      assert Since(events[..n]) + [] == Since(events[..n]);
      assert FirstOf(Since(events[..n])) + [] == FirstOf(Since(events[..n]));
    }
  }

  // Before the last segment nothing changes.
  lemma {:induction false} PickedEarlier(events: seq<BridgeEvent>, n: nat)
    requires n <= |events| && RoleAfter(events) == Unknown
    requires n > 0 ==> !OnlyMessages(events, n - 1)
    ensures Picked(events + [LeaderStatus(true)], n) == Picked(events, n)
  {
    if n > 0 {
      assert n > 1 ==> !OnlyMessages(events, n - 2);
      PickedEarlier(events, n - 1);
      LeadingAdds(events, n - 1);
    }
  }

  lemma PickedAtStart(events: seq<BridgeEvent>, n: nat)
    requires n <= |events| && RoleAfter(events) == Unknown && OnlyMessages(events, n)
    requires n > 0 ==> !OnlyMessages(events, n - 1)
    ensures Since(events[..n]) == [] && Picked(events + [LeaderStatus(true)], n) == Picked(events, n)
  {
    PickedEarlier(events, n);
    if n > 0 { LeadingAdds(events, n - 1); } else { assert events[..0] == []; }
  }

  lemma PickedNext(events: seq<BridgeEvent>, n: nat)
    requires n < |events| && RoleAfter(events) == Unknown && OnlyMessages(events, n)
    requires Picked(events + [LeaderStatus(true)], n) == Picked(events, n) + FirstOf(Since(events[..n]))
    ensures Picked(events + [LeaderStatus(true)], n + 1) == Picked(events, n + 1) + FirstOf(Since(events[..n + 1]))
  {
    LeadingAdds(events, n);
    Joins(Picked(events, n), FirstOf(Since(events[..n])), Own(events + [LeaderStatus(true)], n));
  }

  // In it, what is added is the first hundred messages.
  lemma {:induction false} PickedByLeading(events: seq<BridgeEvent>, n: nat)
    requires n <= |events| && RoleAfter(events) == Unknown && OnlyMessages(events, n)
    ensures Picked(events + [LeaderStatus(true)], n) == Picked(events, n) + FirstOf(Since(events[..n]))
  {
    if n > 0 && OnlyMessages(events, n - 1) {
      PickedByLeading(events, n - 1);
      PickedNext(events, n - 1);
    } else {
      PickedAtStart(events, n);
      Joins(Picked(events, n), [], []);
    }
  }

  lemma Joins(a: seq<Msg>, b: seq<Msg>, c: seq<Msg>)
    ensures a + b + c == a + (b + c) && a + [] == a
  {
  }

  lemma NotYetPassedOn(events: seq<BridgeEvent>, n: nat)
    requires n < |events| && OnlyMessages(events, n) && RoleAfter(events) == Unknown
    ensures !PassedOn(events, n)
  {
    SameSegment(events, n);
    NobodyLeadsNext(events, n + 1);
  }

  lemma {:induction false} NobodyLeadsNext(events: seq<BridgeEvent>, k: nat)
    requires k <= |events| && OnlyMessages(events, k)
    ensures !LeadsNext(events, k)
    decreases |events| - k
  {
    if k < |events| { NobodyLeadsNext(events, k + 1); }
  }

  // ------------------------------------------------------------------ theorem

  /** In every run a bridge passes on exactly the messages that `PassedOn` names, in the order
   *  in which it heard them. */
  lemma {:induction false} DispatchesExactlyThose(events: seq<BridgeEvent>)
    ensures BridgeRun(events).dispatched == Picked(events, |events|)
    decreases |events|
  {
    if events != [] {
      var front, e := events[..|events| - 1], events[|events| - 1];
      DispatchesExactlyThose(front);
      BufferIsTheFirstHundred(front);
      assert events == front + [e];
      PickedSnoc(front, e);
      assert BridgeRun(front).dispatched + [] == BridgeRun(front).dispatched;
    }
  }

  // What an event adds to the messages passed on.
  lemma PickedSnoc(events: seq<BridgeEvent>, e: BridgeEvent)
    ensures Picked(events + [e], |events| + 1) == Picked(events, |events|) +
              (match e
               case Message(m, human) => if human && RoleAfter(events) == Told(true) then [m] else []
               case LeaderStatus(leads) =>
                 if leads && RoleAfter(events) == Unknown then FirstOf(Since(events)) else []
               case GatewayCloses => [])
  {
    var all, n := events + [e], |events|;
    assert all[..n] == events && all[n] == e && events[..n] == events;
    assert !LeadsNext(all, n + 1);
    if e == LeaderStatus(true) && RoleAfter(events) == Unknown {
      PickedByLeading(events, n);
    } else {
      PickedBefore(events, e, n);
    }
  }
}
