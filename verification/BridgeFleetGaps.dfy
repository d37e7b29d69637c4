/** Rounds with nothing in between, and runs in which a message is passed on twice. */
module BridgeFleetGaps {
  import opened Wrappers
  import opened Leader
  import opened BridgeFleet
  import opened BridgeFleetSafety

  lemma {:induction false} RunsAppend(f: Fleet, events: seq<Event>, more: seq<Event>)
    ensures Run(f, events + more) == Run(Run(f, events), more)
  {
    if more == [] {
      assert events + more == events;
    } else {
      assert (events + more)[..|events + more| - 1] == events + more[..|more| - 1];
      RunsAppend(f, events, more[..|more| - 1]);
    }
  }

  lemma RunOne(f: Fleet, e: Event)
    ensures Run(f, [e]) == Step(f, e)
  {
    assert [e][..0] == [];
  }

  // ------------------------------------------------------------ a round on its own

  predicate AreLinks(links: seq<Link>, ks: seq<nat>) { forall x :: 0 <= x < |ks| ==> ks[x] < |links| }

  // The sockets of bridges that have not been revoked, and the links once the others are closed.
  function SeenAt(links: seq<Link>, ks: seq<nat>): seq<Seen>
    requires AreLinks(links, ks)
  {
    if ks == [] then []
    else
      var k := ks[|ks| - 1];
      SeenAt(links, ks[..|ks| - 1]) + (if links[k].socket.revoked then [] else [Seen(k, links[k].socket)])
  }

  function WithoutRevoked(links: seq<Link>, ks: seq<nat>): seq<Link> {
    seq(|links|, k requires 0 <= k < |links| =>
      if k in ks && links[k].socket.revoked then links[k].(listed := false) else links[k])
  }

  function AllSeen(links: seq<Link>): seq<Seen> {
    ListedAreLinks(links);
    SeenAt(links, Listed(links))
  }

  // The round is over its sockets and about to send.
  function Looked(f: Fleet, now: int): Fleet {
    f.(links := WithoutRevoked(f.links, Listed(f.links)), scans := f.scans + [Scan(now, [], AllSeen(f.links), false)])
  }

  function AfterRound(f: Fleet, now: int): Fleet { SendStep(Looked(f, now), |f.scans|) }

  // The state after `m` of the sockets.
  function Looking(f: Fleet, now: int, m: nat): Fleet
    requires m <= |Listed(f.links)|
  {
    ListedAreLinks(f.links);
    var ks := Listed(f.links);
    f.(links := WithoutRevoked(f.links, ks[..m]),
       scans := f.scans + [Scan(now, ks[m..], SeenAt(f.links, ks[..m]), false)])
  }

  lemma OneLess(links: seq<Link>, ks: seq<nat>, m: nat)
    requires m < |ks| && AreLinks(links, ks)
    ensures var l, k := WithoutRevoked(links, ks[..m]), ks[m];
      && l[k].socket == links[k].socket
      && WithoutRevoked(links, ks[..m + 1])
         == (if links[k].socket.revoked then l[k := l[k].(listed := false)] else l)
    ensures SeenAt(links, ks[..m + 1])
         == SeenAt(links, ks[..m]) + (if links[ks[m]].socket.revoked then [] else [Seen(ks[m], links[ks[m]].socket)])
  {
    assert ks[..m + 1] == ks[..m] + [ks[m]];
    assert ks[..m + 1][..m] == ks[..m];
    assert forall k :: k in ks[..m + 1] <==> k in ks[..m] || k == ks[m];
  }

  lemma LookOnce(f: Fleet, now: int, m: nat)
    requires m < |Listed(f.links)|
    ensures Step(Looking(f, now, m), RoundLooks(|f.scans|)) == Looking(f, now, m + 1)
  {
    ListedAreLinks(f.links);
    var ks := Listed(f.links);
    assert ks[m] in ks;
    assert ks[m..][0] == ks[m] && ks[m..][1..] == ks[m + 1..];
    OneLess(f.links, ks, m);
    var g := Looking(f, now, m);
    var scan := g.scans[|f.scans|];
    assert g.scans[|f.scans| := scan.(todo := ks[m + 1..])] == f.scans + [scan.(todo := ks[m + 1..])];
    assert scan.seen + [] == scan.seen;
  }

  lemma {:induction false} LookAll(f: Fleet, now: int, m: nat) returns (events: seq<Event>)
    requires m <= |Listed(f.links)|
    ensures Run(f, events) == Looking(f, now, m)
  {
    if m == 0 {
      events := [RoundStarts(now)];
      RunOne(f, RoundStarts(now));
      ListedAreLinks(f.links);
      assert Listed(f.links)[0..] == Listed(f.links) && SeenAt(f.links, Listed(f.links)[..0]) == [];
      assert WithoutRevoked(f.links, []) == f.links;
    } else {
      var before := LookAll(f, now, m - 1);
      LookOnce(f, now, m - 1);
      events := before + [RoundLooks(|f.scans|)];
      assert events[..|events| - 1] == before;
    }
  }

  /** A round with nothing in between closes the sockets of revoked bridges and sends every other
   *  listed socket the election over these others. */
  lemma SettledRound(f: Fleet, now: int) returns (events: seq<Event>)
    ensures Run(f, events) == AfterRound(f, now)
  {
    var n := |Listed(f.links)|;
    var before := LookAll(f, now, n);
    ListedAreLinks(f.links);
    assert Listed(f.links)[..n] == Listed(f.links) && Listed(f.links)[n..] == [];
    assert Looking(f, now, n) == Looked(f, now);
    events := before + [RoundSends(|f.scans|)];
    assert events[..|events| - 1] == before;
  }

  // What a round sees: each listed socket whose bridge is not revoked, as it is.
  lemma {:induction false} SeenExactlyWhen(links: seq<Link>, ks: seq<nat>, k: nat)
    requires AreLinks(links, ks)
    ensures (exists x :: 0 <= x < |SeenAt(links, ks)| && SeenAt(links, ks)[x].k == k)
            <==> k in ks && !links[k].socket.revoked
    ensures forall x :: 0 <= x < |SeenAt(links, ks)| && SeenAt(links, ks)[x].k == k ==>
              k < |links| && SeenAt(links, ks)[x].socket == links[k].socket
  {
    if ks != [] {
      var front, last := ks[..|ks| - 1], ks[|ks| - 1];
      SeenExactlyWhen(links, front, k);
      assert ks == front + [last];
      if last == k && !links[k].socket.revoked {
        assert SeenAt(links, ks)[|SeenAt(links, front)|] == Seen(k, links[k].socket);
      }
      if x :| 0 <= x < |SeenAt(links, front)| && SeenAt(links, front)[x].k == k {
        assert SeenAt(links, ks)[x] == SeenAt(links, front)[x];
      }
    }
  }

  /** A socket that has just been heard from can be elected by a round exactly within the next
   *  45 seconds, however long ago it connected. */
  lemma ElectableExactlyWhileHeardFrom(f: Fleet, k: nat, at: int, now: int) returns (x: nat)
    requires k < |f.links| && f.links[k].listed && f.links[k].socket.Listens()
    ensures var seen := AllSeen(Step(f, Beats(k, at)).links);
      && x < |seen| && seen[x].k == k
      && (Candidate(SocketsOf(seen), now, x) <==> now - at < 45_000)
  {
    var links := Step(f, Beats(k, at)).links;
    ListedAreLinks(links);
    SeenExactlyWhen(links, Listed(links), k);
    x :| 0 <= x < |AllSeen(links)| && AllSeen(links)[x].k == k;
  }

  /** Once a bridge is revoked, the next round does not look at its socket, and closes it. */
  lemma RevokedIsCutOff(f: Fleet, k: nat, now: int, x: nat)
    requires k < |f.links|
    ensures var g := Step(f, Revoked(k));
      && !AfterRound(g, now).links[k].listed
      && (x < |AllSeen(g.links)| ==> AllSeen(g.links)[x].k != k)
  {
    var links := Step(f, Revoked(k)).links;
    ListedAreLinks(links);
    SeenExactlyWhen(links, Listed(links), k);
    assert x < |AllSeen(links)| ==> AllSeen(links)[x] == SeenAt(links, Listed(links))[x];
  }

  lemma {:induction false} LastIfAny(links: seq<Link>, seen: seq<Seen>, i: nat, n: nat, x: nat)
    requires x < n <= |seen| && Reaches(links, seen, i, x)
    ensures Last(links, seen, i, n).Some?
  {
    if x < n - 1 { LastIfAny(links, seen, i, n - 1, x); }
  }

  // The gateway has an open socket of the bridge, and has not revoked it.
  ghost predicate IsConnected(f: Fleet, i: nat) {
    exists k :: 0 <= k < |f.links| && f.links[k].listed && f.links[k].owner == Some(i)
           && !f.links[k].socket.revoked
  }

  lemma ConnectedIsTold(f: Fleet, now: int, i: nat)
    requires IsConnected(f, i)
    ensures var t := Looked(f, now); Told(t, t.scans[|f.scans|], i)
  {
    var k :| 0 <= k < |f.links| && f.links[k].listed && f.links[k].owner == Some(i) && !f.links[k].socket.revoked;
    ListedAreLinks(f.links);
    var seen := AllSeen(f.links);
    SeenExactlyWhen(f.links, Listed(f.links), k);
    var x :| 0 <= x < |seen| && seen[x].k == k;
    LastIfAny(Looked(f, now).links, seen, i, |seen|, x);
  }

  /** After a round with nothing in between, while every bridge that believes it leads is
   *  connected, each workspace has at most one bridge that passes messages on. */
  lemma SettledRoundLeavesOneLeader(f: Fleet, now: int) returns (events: seq<Event>)
    requires Inv(f)
    requires forall i :: 0 <= i < |f.bridges| && WillDispatch(f.bridges[i]) ==> IsConnected(f, i)
    ensures Run(f, events) == AfterRound(f, now) && HasOneLeader(AfterRound(f, now))
  {
    events := SettledRound(f, now);
    var t := Looked(f, now);
    LookedKeeps(f, now);
    forall i | 0 <= i < |t.bridges| && WillDispatch(t.bridges[i])
      ensures Told(t, t.scans[|f.scans|], i)
    {
      ConnectedIsTold(f, now, i);
    }
    RoundLeavesOneDispatcher(t, |f.scans|);
  }

  lemma LookedKeeps(f: Fleet, now: int)
    requires Inv(f)
    ensures Inv(Looked(f, now))
  {
    var events := LookAll(f, now, |Listed(f.links)|);
    ListedAreLinks(f.links);
    assert Listed(f.links)[..|Listed(f.links)|] == Listed(f.links);
    RunKeeps(f, events);
    assert Looking(f, now, |Listed(f.links)|) == Looked(f, now);
  }

  // ------------------------------------------------------------ two bridges of one workspace

  function LinkAt(at: nat, owner: Option<nat>, listed: bool): Link {
    Link(Socket(true, false, "w", at, Some(at)), owner, listed)
  }

  lemma {:induction false} NoneRevokedStay(links: seq<Link>, ks: seq<nat>)
    requires AreLinks(links, ks) && forall k :: k in ks ==> !links[k].socket.revoked
    ensures WithoutRevoked(links, ks) == links && |SeenAt(links, ks)| == |ks|
    ensures forall x :: 0 <= x < |ks| ==> SeenAt(links, ks)[x] == Seen(ks[x], links[ks[x]].socket)
  {
    if ks != [] {
      assert ks == ks[..|ks| - 1] + [ks[|ks| - 1]];
      NoneRevokedStay(links, ks[..|ks| - 1]);
    }
  }

  lemma ListedPair(links: seq<Link>)
    requires |links| == 2 && links[1].listed
    ensures Listed(links) == if links[0].listed then [0, 1] else [1]
  {
    var front := links[..1];
    assert links[..|links| - 1] == front && front[..|front| - 1] == [];
    assert Listed(front) == if links[0].listed then [0] else [];
  }

  // A round over the sockets of bridges 0 and 1, both of which it finds.
  lemma RoundOverBoth(f: Fleet, now: int, first: nat, second: nat)
    requires |f.bridges| == 2 && f.links == [LinkAt(first, Some(0), true), LinkAt(second, Some(1), true)]
    requires first != second && 0 <= now - first < LIVENESS_WINDOW_MS && 0 <= now - second < LIVENESS_WINDOW_MS
    ensures AfterRound(f, now).bridges
         == [OnStatus(f.bridges[0], first > second), OnStatus(f.bridges[1], second > first)]
  {
    var seen := AllSeen(f.links);
    ListedPair(f.links);
    NoneRevokedStay(f.links, [0, 1]);
    assert seen == [Seen(0, f.links[0].socket), Seen(1, f.links[1].socket)];
    var sockets := SocketsOf(seen);
    assert sockets[0] == f.links[0].socket && sockets[1] == f.links[1].socket;
    assert Elected(sockets, now, 0) <==> first > second;
    assert Elected(sockets, now, 1) <==> second > first;
    HearsOnce(f.bridges[0], f.links, seen, now, 0, 2, 0);
    HearsOnce(f.bridges[1], f.links, seen, now, 1, 2, 1);
  }

  // A round that finds only one socket.
  lemma RoundOverOne(f: Fleet, now: int, k: nat, i: nat)
    requires Listed(f.links) == [k] && k < |f.links| && i < |f.bridges|
    requires f.links[k].owner == Some(i) && f.links[k].listed
    requires f.links[k].socket.Listens() && f.links[k].socket.Live(now)
    ensures AfterRound(f, now).bridges == f.bridges[i := OnStatus(f.bridges[i], true)]
  {
    var seen := AllSeen(f.links);
    NoneRevokedStay(f.links, [k]);
    assert seen == [Seen(k, f.links[k].socket)];
    assert SocketsOf(seen)[0] == f.links[k].socket;
    assert Elected(SocketsOf(seen), now, 0);
    var t := AfterRound(f, now);
    forall j | 0 <= j < |f.bridges|
      ensures t.bridges[j] == if j == i then OnStatus(f.bridges[i], true) else f.bridges[j]
    {
      HearsOnce(f.bridges[j], f.links, seen, now, j, 1, 0);
    }
  }

  // Bridge 0 has started, has connected and has been elected.
  function Alone(at: nat): Fleet {
    Fleet(["w"], [OnStatus(NewBridge, true)], [Some(0)], [LinkAt(at, Some(0), true)],
          [Scan(at, [], [Seen(0, LinkAt(at, Some(0), true).socket)], true)], {})
  }

  lemma ReachAlone(at: nat) returns (events: seq<Event>)
    ensures Run(Init, events) == Alone(at)
  {
    var start := Then([], Boots("w"));
    start := Then(start, Opens(0, at, true));
    var f := Connected(at);
    assert Run(Init, start) == Step(Step(Init, Boots("w")), Opens(0, at, true)) == f;
    var round := SettledRound(f, at);
    RunsAppend(Init, start, round);
    events := start + round;
    ElectedAlone(at);
  }

  // It has only connected.
  function Connected(at: nat): Fleet {
    Fleet(["w"], [NewBridge], [Some(0)], [LinkAt(at, Some(0), true)], [], {})
  }

  lemma ElectedAlone(at: nat)
    ensures AfterRound(Connected(at), at) == Alone(at)
  {
    var f := Connected(at);
    assert f.links[..0] == [];
    RoundOverOne(f, at, 0, 0);
    NoneRevokedStay(f.links, [0]);
    assert AllSeen(f.links) == [Seen(0, f.links[0].socket)];
  }

  // A second bridge of the workspace has started and connected.
  function Joined(): Fleet {
    var f := Alone(0);
    f.(sids := ["w", "w"], bridges := [f.bridges[0], NewBridge], current := [Some(0), Some(1)],
       links := [LinkAt(0, Some(0), true), LinkAt(1, Some(1), true)])
  }

  lemma ReachJoined() returns (events: seq<Event>)
    ensures Run(Init, events) == Joined()
  {
    var start := ReachAlone(0);
    events := Then(start, Boots("w"));
    events := Then(events, Opens(1, 1, true));
    assert Run(Init, events) == Step(Step(Alone(0), Boots("w")), Opens(1, 1, true));
  }

  lemma Then(events: seq<Event>, e: Event) returns (more: seq<Event>)
    ensures more == events + [e] && Run(Init, more) == Step(Run(Init, events), e)
  {
    more := events + [e];
    assert more[..|more| - 1] == events;
  }

  /** The leader passes message 7 on while the bridge that has just connected buffers it; the
   *  next round makes that one leader, and it passes 7 on again. */
  lemma HandoverRepeatsTheBuffered() returns (events: seq<Event>)
    ensures var f := Run(Init, events);
      f.sids == ["w", "w"] && |f.bridges| == 2
      && f.bridges[0].dispatched == [7] && f.bridges[1].dispatched == [7]
  {
    events := ReachJoined();
    events := Then(events, Spread(7, {0, 1}));
    var f := Run(Init, events);
    assert f.bridges == [OnMessage(OnStatus(NewBridge, true), 7, true), OnMessage(NewBridge, 7, true)];
    var round := SettledRound(f, 1);
    RoundOverBoth(f, 1, 0, 1);
    RunsAppend(Init, events, round);
    events := events + round;
  }

  lemma ListedFirst(links: seq<Link>)
    requires |links| == 2 && links[0].listed && !links[1].listed
    ensures Listed(links) == [0]
  {
    var front := links[..1];
    assert links[..|links| - 1] == front && front[..|front| - 1] == [];
    assert Listed(front) == [0];
  }

  // The round after that has elected the second bridge.
  function Elects(): Fleet { AfterRound(Joined(), 1) }

  // The second bridge refreshes its token, and the gateway has seen the old socket close.
  function Refreshed(): Fleet {
    Elects().(current := [Some(0), None], links := [LinkAt(0, Some(0), true), LinkAt(1, None, false)])
  }

  lemma ReachRefreshed() returns (events: seq<Event>)
    ensures Run(Init, events) == Refreshed()
  {
    var start := ReachJoined();
    var round := SettledRound(Joined(), 1);
    RunsAppend(Init, start, round);
    events := Then(start + round, Refreshes(1));
    events := Then(events, Dropped(1));
    assert Run(Init, events) == Refreshed();
  }

  // The next round reaches only the first bridge.
  function TwoLeaders(): Fleet { AfterRound(Refreshed(), 2) }

  lemma BothLead()
    ensures var f := TwoLeaders();
      && f.sids == ["w", "w"] && f.spread == {}
      && f.bridges == [OnStatus(OnStatus(OnStatus(NewBridge, true), false), true), OnStatus(NewBridge, true)]
  {
    RoundOverBoth(Joined(), 1, 0, 1);
    ListedFirst(Refreshed().links);
    RoundOverOne(Refreshed(), 2, 0, 0);
  }

  lemma NothingPassedOn()
    ensures |TwoLeaders().sids| == |TwoLeaders().bridges| && Once(TwoLeaders())
  {
    BothLead();
    var f := TwoLeaders();
    assert f.bridges[0].dispatched == [] && f.bridges[1].dispatched == [];
  }

  lemma ReachTwoLeaders() returns (events: seq<Event>)
    ensures Run(Init, events) == TwoLeaders() && NeverOverlaps(events)
  {
    var start := ReachRefreshed();
    var round := SettledRound(Refreshed(), 2);
    RunsAppend(Init, start, round);
    events := start + round;
    NothingPassedOn();
    DispatchedOnceExactlyWhenNoOverlap(events);
  }

  /** The leader is between two sockets after a token refresh, and still believes it leads, when
   *  a round elects the other bridge: both pass the next message on.  No bridge was made leader
   *  over a buffer that had been passed on. */
  lemma RefreshLeavesTwoLeaders() returns (events: seq<Event>)
    ensures var f := Run(Init, events);
      f.sids == ["w", "w"] && |f.bridges| == 2
      && f.bridges[0].dispatched == [7] && f.bridges[1].dispatched == [7]
    ensures NeverOverlaps(events) && !NeverBeside(events)
  {
    var front := ReachTwoLeaders();
    BothLead();
    events := Then(front, Spread(7, {0, 1}));
    assert events[..|events| - 1] == front;
    assert NeverOverlaps(events);
    assert SameServer(Run(Init, events), 0, 1) && 7 in Run(Init, events).bridges[0].dispatched;
    OnceThroughoutExactlyWhenRoundsAreClean(events);
    assert !OnceNow(Run(Init, events));
  }
}
