/** One bridge of a fleet, and one socket: what each makes of the events of the whole. */
module BridgeFleetTrace {
  import opened Wrappers
  import opened Leader
  import opened BridgeFleet
  import opened BridgeFleetSafety
  import BridgeDispatch

  // ------------------------------------------------------------------ one bridge

  // The roles a round tells bridge `i` on the first `n` sockets.
  function Statuses(links: seq<Link>, seen: seq<Seen>, now: int, i: nat, n: nat): seq<BridgeEvent>
    requires n <= |seen|
  {
    if n == 0 then []
    else
      Statuses(links, seen, now, i, n - 1)
      + (if Reaches(links, seen, i, n - 1) then [LeaderStatus(Elected(SocketsOf(seen), now, n - 1))] else [])
  }

  // What a running bridge notices of an event: a message, its role, or the loss of its gateway.
  function Notices(f: Fleet, e: Event, i: nat): seq<BridgeEvent> {
    if i >= |f.bridges| || i >= |f.current| then []
    else
      match e
      case Spread(m, to) => if m !in f.spread && i in to then [Message(m, true)] else []
      case Closes(k) => if f.current[i] == Some(k) then [GatewayCloses] else []
      case OpenFails(j) => if j == i && f.current[i].None? then [GatewayCloses] else []
      case RoundSends(r) =>
        if Sends(f, e) then Statuses(f.links, f.scans[r].seen, f.scans[r].now, i, |f.scans[r].seen|) else []
      case _ => []
  }

  function Trace(events: seq<Event>, i: nat): seq<BridgeEvent>
    decreases |events|
  {
    if events == [] then []
    else
      var front := events[..|events| - 1];
      Trace(front, i) + Notices(Run(Init, front), events[|events| - 1], i)
  }

  function Fold(b: Bridge, es: seq<BridgeEvent>): Bridge
    decreases |es|
  {
    if es == [] then b else BridgeStep(Fold(b, es[..|es| - 1]), es[|es| - 1])
  }

  lemma {:induction false} FoldSnoc(b: Bridge, es: seq<BridgeEvent>, e: BridgeEvent)
    ensures Fold(b, es + [e]) == BridgeStep(Fold(b, es), e)
  {
    assert (es + [e])[..|es|] == es;
  }

  lemma {:induction false} RunThenFold(es: seq<BridgeEvent>, more: seq<BridgeEvent>)
    ensures BridgeRun(es + more) == Fold(BridgeRun(es), more)
    decreases |more|
  {
    if more == [] {
      assert es + more == es;
    } else {
      assert (es + more)[..|es + more| - 1] == es + more[..|more| - 1];
      RunThenFold(es, more[..|more| - 1]);
    }
  }

  lemma {:induction false} HearsStatuses(b: Bridge, links: seq<Link>, seen: seq<Seen>, now: int, i: nat, n: nat)
    requires n <= |seen|
    ensures Hears(b, links, seen, now, i, n) == Fold(b, Statuses(links, seen, now, i, n))
  {
    if n != 0 {
      HearsStatuses(b, links, seen, now, i, n - 1);
      var es := Statuses(links, seen, now, i, n - 1);
      assert es + [] == es;
      FoldSnoc(b, es, LeaderStatus(Elected(SocketsOf(seen), now, n - 1)));
    }
  }

  lemma FoldOne(b: Bridge, e: BridgeEvent)
    ensures Fold(b, [e]) == BridgeStep(b, e) && Fold(b, []) == b
  {
    assert [e][..0] == [];
  }

  lemma StepFolds(f: Fleet, e: Event, i: nat)
    requires Inv(f) && i < |f.bridges|
    ensures i < |Step(f, e).bridges| && Step(f, e).bridges[i] == Fold(f.bridges[i], Notices(f, e, i))
  {
    var b := f.bridges[i];
    FoldOne(b, GatewayCloses);
    match e
    case Spread(m, to) => FoldOne(b, Message(m, true));
    case RoundSends(r) =>
      if Sends(f, e) { HearsStatuses(b, f.links, f.scans[r].seen, f.scans[r].now, i, |f.scans[r].seen|); }
    case _ =>
  }

  lemma BootsAlone(f: Fleet, e: Event)
    requires Inv(f)
    ensures |Step(f, e).bridges| == |f.bridges| + (if e.Boots? then 1 else 0)
    ensures e.Boots? ==> Step(f, e).bridges[|f.bridges|] == NewBridge
  {
  }

  /** In every run of a fleet each bridge does what a single bridge does with what it notices. */
  lemma {:induction false} EachBridgeRunsItsTrace(events: seq<Event>, i: nat)
    ensures var f := Run(Init, events);
      if i < |f.bridges| then f.bridges[i] == BridgeRun(Trace(events, i)) else Trace(events, i) == []
    decreases |events|
  {
    if events != [] {
      var front, e := events[..|events| - 1], events[|events| - 1];
      var f := Run(Init, front);
      EachBridgeRunsItsTrace(front, i);
      RunKeeps(Init, front);
      BootsAlone(f, e);
      if i < |f.bridges| {
        StepFolds(f, e, i);
        RunThenFold(Trace(front, i), Notices(f, e, i));
      }
    }
  }

  /** So it passes on exactly the messages it heard while it led, and the first hundred it heard
   *  while it knew no role if the next role it learnt was that it leads. */
  lemma EachBridgePassesOnExactlyThose(events: seq<Event>, i: nat)
    requires i < |Run(Init, events).bridges|
    ensures var trace := Trace(events, i);
      Run(Init, events).bridges[i].dispatched == BridgeDispatch.Picked(trace, |trace|)
  {
    EachBridgeRunsItsTrace(events, i);
    BridgeDispatch.DispatchesExactlyThose(Trace(events, i));
  }

  // ------------------------------------------------------------------ one socket

  /** A socket's other end is gone exactly when it has closed or its bridge has refreshed its
   *  token, and the gateway has it until it notices or finds the bridge revoked. */
  lemma SocketEndsExactlyWhen(f: Fleet, e: Event, k: nat)
    requires Inv(f) && k < |f.links|
    ensures var t := Step(f, e); var was := f.links[k];
      && k < |t.links|
      && t.links[k].owner == (if was.owner.Some? && (e == Closes(k) || (e == Refreshes(was.owner.value)
                                                       && f.current[was.owner.value] == Some(k)))
                              then None else was.owner)
      && (t.links[k].listed <==>
            was.listed && e != Dropped(k)
            && !(e.RoundLooks? && e.r < |f.scans| && f.scans[e.r].todo != [] && f.scans[e.r].todo[0] == k
                 && was.socket.revoked))
      && t.links[k].socket
         == was.socket.(revoked := was.socket.revoked || e == Revoked(k),
                        lastHeartbeatAt := if e.Beats? && e.k == k then Some(e.at) else was.socket.lastHeartbeatAt)
  {
    if was: nat :| f.links[k].owner == Some(was) { assert LinkFits(f.links[k], f.sids); }
  }

  /** The socket a bridge regards as its gateway's is the one it opened last, once accepted,
   *  until it closes, is given up in a refresh, or another one is opened. */
  lemma CurrentSocketExactlyWhen(f: Fleet, e: Event, i: nat)
    requires Inv(f) && i < |f.bridges|
    ensures var t := Step(f, e);
      && i < |t.current|
      && t.current[i] == (if e.Opens? && e.i == i && e.latest then Some(|f.links|)
                          else if e == Refreshes(i) || e == Reopens(i) then None
                          else if e.Closes? && f.current[i] == Some(e.k) then None
                          else f.current[i])
  {
    if k: nat :| f.current[i] == Some(k) { assert f.links[k].owner == Some(i); }
  }
}
