/** All bridges of a user together with the gateway that elects among them: who dispatches a
 * message, over every run.
 *
 * A round of the gateway looks at its sockets one by one, with an await at each, and then
 * sends every bridge its role; rounds, connections, closes, token refreshes and messages
 * fall in between as they like.  What a round sends is heard at once, and so is a message,
 * by whichever bridges hear it.
 */
module BridgeFleet {
  import opened Wrappers
  import opened Leader

  /** A gateway socket.  `owner` is the bridge at its other end, until that end is closed;
   *  `listed` says whether the gateway still has it.  Either may go first. */
  datatype Link = Link(socket: Socket, owner: Option<nat>, listed: bool)

  // A socket as a round found it.
  datatype Seen = Seen(k: nat, socket: Socket)

  datatype Scan = Scan(now: int, todo: seq<nat>, seen: seq<Seen>, sent: bool)

  /** Bridge `i` serves workspace `sids[i]`, and `current[i]` is the accepted socket it regards
   *  as its gateway socket, if any.  `spread` holds the messages sent so far. */
  datatype Fleet = Fleet(
    sids: seq<string>,
    bridges: seq<Bridge>,
    current: seq<Option<nat>>,
    links: seq<Link>,
    scans: seq<Scan>,
    spread: set<Msg>)

  const Init := Fleet([], [], [], [], [], {})

  datatype Event =
    | Boots(serverId: string)
    | Opens(i: nat, connectedAt: nat, latest: bool)
    | OpenFails(i: nat)
    | Closes(k: nat)
    | Refreshes(i: nat)
    | Reopens(i: nat)
    | Dropped(k: nat)
    | Beats(k: nat, at: int)
    | Revoked(k: nat)
    | RoundStarts(now: int)
    | RoundLooks(r: nat)
    | RoundSends(r: nat)
    | Spread(m: Msg, to: set<nat>)

  // ------------------------------------------------------------------ the steps

  function SocketsOf(seen: seq<Seen>): seq<Socket> {
    seq(|seen|, x requires 0 <= x < |seen| => seen[x].socket)
  }

  function Listed(links: seq<Link>): seq<nat> {
    if links == [] then []
    else Listed(links[..|links| - 1]) + (if links[|links| - 1].listed then [|links| - 1] else [])
  }

  // What the round sends to its `x`-th socket reaches bridge `i`.
  predicate Reaches(links: seq<Link>, seen: seq<Seen>, i: nat, x: nat) {
    x < |seen| && seen[x].k < |links| && links[seen[x].k].listed && links[seen[x].k].owner == Some(i)
  }

  // Bridge `i` after what it is sent on the first `n` sockets, in their order.
  function Hears(b: Bridge, links: seq<Link>, seen: seq<Seen>, now: int, i: nat, n: nat): Bridge
    requires n <= |seen|
  {
    if n == 0 then b
    else
      var c := Hears(b, links, seen, now, i, n - 1);
      if Reaches(links, seen, i, n - 1) then OnStatus(c, Elected(SocketsOf(seen), now, n - 1)) else c
  }

  function SendStep(f: Fleet, r: nat): Fleet
    requires r < |f.scans|
  {
    var s := f.scans[r];
    f.(bridges := seq(|f.bridges|, i requires 0 <= i < |f.bridges| =>
         Hears(f.bridges[i], f.links, s.seen, s.now, i, |s.seen|)),
       scans := f.scans[r := s.(sent := true)])
  }

  // The next socket: a revoked one is closed and left out.
  function LookStep(f: Fleet, r: nat): Fleet
    requires r < |f.scans| && f.scans[r].todo != [] && f.scans[r].todo[0] < |f.links|
  {
    var s := f.scans[r];
    var k := s.todo[0];
    if f.links[k].socket.revoked
    then f.(scans := f.scans[r := s.(todo := s.todo[1..])], links := f.links[k := f.links[k].(listed := false)])
    else f.(scans := f.scans[r := s.(todo := s.todo[1..], seen := s.seen + [Seen(k, f.links[k].socket)])])
  }

  function SpreadStep(f: Fleet, m: Msg, to: set<nat>): Fleet {
    f.(bridges := seq(|f.bridges|, i requires 0 <= i < |f.bridges| =>
         if i in to then OnMessage(f.bridges[i], m, true) else f.bridges[i]),
       spread := f.spread + {m})
  }

  // The bridge's end of a socket closes; only the close of its current socket matters to it.
  function CloseStep(f: Fleet, k: nat, i: nat): Fleet
    requires k < |f.links| && i < |f.bridges| == |f.current|
  {
    var t := f.(links := f.links[k := f.links[k].(owner := None)]);
    if f.current[i] != Some(k) then t
    else t.(current := f.current[i := None], bridges := f.bridges[i := OnClose(f.bridges[i])])
  }

  /** A token refresh closes the gateway socket and at once puts a new one, not yet accepted, in
   *  its place: the close of the old one is then ignored, so role and buffer stay. */
  function RefreshStep(f: Fleet, i: nat): Fleet
    requires i < |f.current|
  {
    var c := f.current[i];
    var t := f.(current := f.current[i := None]);
    if c.Some? && c.value < |f.links| then t.(links := f.links[c.value := f.links[c.value].(owner := None)]) else t
  }

  // An event that is not possible in a state changes nothing.
  function Step(f: Fleet, e: Event): Fleet {
    match e
    case Boots(serverId) =>
      f.(sids := f.sids + [serverId], bridges := f.bridges + [NewBridge], current := f.current + [None])
    // A socket is accepted: the bridge's latest, or one that it has replaced in the meantime.
    case Opens(i, at, latest) =>
      if i < |f.sids| && i < |f.current|
      then f.(links := f.links + [Link(Socket(true, false, f.sids[i], at, Some(at)), Some(i), true)],
              current := if latest then f.current[i := Some(|f.links|)] else f.current)
      else f
    case OpenFails(i) =>
      if i < |f.bridges| && i < |f.current| && f.current[i].None?
      then f.(bridges := f.bridges[i := OnClose(f.bridges[i])]) else f
    case Closes(k) =>
      if k < |f.links| && f.links[k].owner.Some? && f.links[k].owner.value < |f.bridges| == |f.current|
      then CloseStep(f, k, f.links[k].owner.value) else f
    case Refreshes(i) => if i < |f.current| then RefreshStep(f, i) else f
    // A reconnection timer fires though a refresh has opened a socket, which stays open.
    case Reopens(i) => if i < |f.current| then f.(current := f.current[i := None]) else f
    case Dropped(k) => if k < |f.links| then f.(links := f.links[k := f.links[k].(listed := false)]) else f
    case Beats(k, at) =>
      if k < |f.links|
      then f.(links := f.links[k := f.links[k].(socket := f.links[k].socket.(lastHeartbeatAt := Some(at)))]) else f
    case Revoked(k) =>
      if k < |f.links|
      then f.(links := f.links[k := f.links[k].(socket := f.links[k].socket.(revoked := true))]) else f
    case RoundStarts(now) => f.(scans := f.scans + [Scan(now, Listed(f.links), [], false)])
    case RoundLooks(r) =>
      if r < |f.scans| && f.scans[r].todo != [] && f.scans[r].todo[0] < |f.links| then LookStep(f, r) else f
    case RoundSends(r) =>
      if r < |f.scans| && f.scans[r].todo == [] && !f.scans[r].sent then SendStep(f, r) else f
    case Spread(m, to) => if m in f.spread then f else SpreadStep(f, m, to)
  }

  function Run(f: Fleet, events: seq<Event>): Fleet
    decreases |events|
  {
    if events == [] then f else Step(Run(f, events[..|events| - 1]), events[|events| - 1])
  }

  // ------------------------------------------------------------- the invariant

  predicate LinkFits(link: Link, sids: seq<string>) {
    && link.socket.isBridge
    && (link.owner.Some? ==> link.owner.value < |sids| && link.socket.serverId == sids[link.owner.value])
  }

  ghost predicate LinksFit(links: seq<Link>, sids: seq<string>) {
    forall k :: 0 <= k < |links| ==> LinkFits(links[k], sids)
  }

  ghost predicate CurrentFits(current: seq<Option<nat>>, links: seq<Link>) {
    forall i :: 0 <= i < |current| && current[i].Some? ==>
      current[i].value < |links| && links[current[i].value].owner == Some(i)
  }

  predicate SeenFits(s: Seen, links: seq<Link>) {
    s.k < |links| && s.socket.Listens() && s.socket.serverId == links[s.k].socket.serverId
  }

  ghost predicate ScanFits(scan: Scan, links: seq<Link>) {
    && (forall x :: 0 <= x < |scan.todo| ==> scan.todo[x] < |links|)
    && (forall x :: 0 <= x < |scan.seen| ==> SeenFits(scan.seen[x], links))
  }

  ghost predicate ScansFit(scans: seq<Scan>, links: seq<Link>) {
    forall r :: 0 <= r < |scans| ==> ScanFits(scans[r], links)
  }

  ghost predicate Distinct(ids: seq<Msg>) { forall i, j :: 0 <= i < j < |ids| ==> ids[i] != ids[j] }

  ghost predicate BridgeFits(b: Bridge, spread: set<Msg>) {
    BridgeInv(b) && Distinct(b.received) && forall m :: m in b.received ==> m in spread
  }

  ghost predicate BridgesFit(bridges: seq<Bridge>, spread: set<Msg>) {
    forall i :: 0 <= i < |bridges| ==> BridgeFits(bridges[i], spread)
  }

  ghost predicate Inv(f: Fleet) {
    && |f.sids| == |f.bridges| == |f.current|
    && LinksFit(f.links, f.sids)
    && CurrentFits(f.current, f.links)
    && ScansFit(f.scans, f.links)
    && BridgesFit(f.bridges, f.spread)
  }

  // ---------------------------------------------------------------- the proofs

  // The links change, but not which workspace they are of.
  ghost predicate SameServers(links: seq<Link>, more: seq<Link>) {
    |links| <= |more| && forall k :: 0 <= k < |links| ==> more[k].socket.serverId == links[k].socket.serverId
  }

  lemma ScansStayFit(scans: seq<Scan>, links: seq<Link>, more: seq<Link>)
    requires ScansFit(scans, links) && SameServers(links, more)
    ensures ScansFit(scans, more)
  {
    forall r | 0 <= r < |scans|
      ensures ScanFits(scans[r], more)
    {
      assert ScanFits(scans[r], links);
      forall x | 0 <= x < |scans[r].seen| ensures SeenFits(scans[r].seen[x], more) {
        assert SeenFits(scans[r].seen[x], links);
      }
    }
  }

  lemma BootKeeps(f: Fleet, serverId: string)
    requires Inv(f)
    ensures Inv(Step(f, Boots(serverId)))
  {
    var t := Step(f, Boots(serverId));
    assert NewBridge.dispatched + NewBridge.pending == [];
    assert BridgeFits(NewBridge, f.spread);
    forall k | 0 <= k < |t.links| ensures LinkFits(t.links[k], t.sids) { assert LinkFits(f.links[k], f.sids); }
  }

  lemma OpenKeeps(f: Fleet, i: nat, at: nat, latest: bool)
    requires Inv(f) && i < |f.sids|
    ensures Inv(Step(f, Opens(i, at, latest)))
  {
    var t := Step(f, Opens(i, at, latest));
    ScansStayFit(f.scans, f.links, t.links);
    forall k | 0 <= k < |t.links| ensures LinkFits(t.links[k], t.sids) {
      assert k < |f.links| ==> LinkFits(f.links[k], f.sids);
    }
  }

  // One link changes, but for its workspace, and at most loses its owner.
  lemma LinkChangeKeeps(f: Fleet, t: Fleet, k: nat, link: Link)
    requires Inv(f) && k < |f.links| && t == f.(links := f.links[k := link], current := t.current)
    requires link.socket.isBridge && link.socket.serverId == f.links[k].socket.serverId
    requires link.owner == f.links[k].owner || link.owner == None
    requires |t.current| == |f.current| && CurrentFits(t.current, t.links)
    ensures Inv(t)
  {
    ScansStayFit(f.scans, f.links, t.links);
    forall l | 0 <= l < |t.links| ensures LinkFits(t.links[l], t.sids) { assert LinkFits(f.links[l], f.sids); }
  }

  lemma ForgetKeeps(f: Fleet, i: nat)
    requires Inv(f) && i < |f.bridges|
    ensures Inv(f.(bridges := f.bridges[i := OnClose(f.bridges[i])]))
  {
    assert BridgeFits(f.bridges[i], f.spread);
    BridgeStepKeeps(f.bridges[i], GatewayCloses);
  }

  lemma CloseKeeps(f: Fleet, k: nat)
    requires Inv(f) && k < |f.links| && f.links[k].owner.Some?
    ensures Inv(Step(f, Closes(k)))
  {
    assert LinkFits(f.links[k], f.sids);
    var i, link := f.links[k].owner.value, f.links[k].(owner := None);
    var current := if f.current[i] == Some(k) then f.current[i := None] else f.current;
    var t := f.(links := f.links[k := link], current := current);
    LinkChangeKeeps(f, t, k, link);
    if f.current[i] == Some(k) { ForgetKeeps(t, i); }
  }

  lemma RefreshKeeps(f: Fleet, i: nat)
    requires Inv(f) && i < |f.current|
    ensures Inv(RefreshStep(f, i))
  {
    var c := f.current[i];
    if c.Some? {
      var link := f.links[c.value].(owner := None);
      assert LinkFits(f.links[c.value], f.sids);
      LinkChangeKeeps(f, RefreshStep(f, i), c.value, link);
    }
  }

  lemma SocketKeeps(f: Fleet, k: nat, link: Link)
    requires Inv(f) && k < |f.links|
    requires link.socket.isBridge && link.socket.serverId == f.links[k].socket.serverId
    requires link.owner == f.links[k].owner
    ensures Inv(f.(links := f.links[k := link]))
  {
    LinkChangeKeeps(f, f.(links := f.links[k := link]), k, link);
  }

  lemma {:induction false} ListedAreLinks(links: seq<Link>)
    ensures forall x :: 0 <= x < |Listed(links)| ==> Listed(links)[x] < |links|
    ensures forall k :: k in Listed(links) <==> 0 <= k < |links| && links[k].listed
  {
    if links != [] { ListedAreLinks(links[..|links| - 1]); }
  }

  lemma StartKeeps(f: Fleet, now: int)
    requires Inv(f)
    ensures Inv(Step(f, RoundStarts(now)))
  {
    ListedAreLinks(f.links);
  }

  lemma LookKeeps(f: Fleet, r: nat)
    requires Inv(f) && r < |f.scans| && f.scans[r].todo != []
    ensures f.scans[r].todo[0] < |f.links| && Inv(LookStep(f, r))
  {
    var s := f.scans[r];
    assert ScanFits(s, f.links);
    var k := s.todo[0];
    assert LinkFits(f.links[k], f.sids);
    var t := LookStep(f, r);
    if f.links[k].socket.revoked {
      SocketKeeps(f, k, f.links[k].(listed := false));
      assert ScanFits(s, t.links);
      assert ScanFits(t.scans[r], t.links);
    } else {
      assert ScanFits(t.scans[r], t.links);
    }
  }

  lemma SpreadFits(b: Bridge, m: Msg, hears: bool, spread: set<Msg>)
    requires BridgeFits(b, spread) && m !in spread
    ensures BridgeFits(if hears then OnMessage(b, m, true) else b, spread + {m})
  {
    BridgeStepKeeps(b, Message(m, true));
  }

  lemma SpreadKeeps(f: Fleet, m: Msg, to: set<nat>)
    requires Inv(f) && m !in f.spread
    ensures Inv(SpreadStep(f, m, to))
  {
    var t := SpreadStep(f, m, to);
    forall i | 0 <= i < |t.bridges|
      ensures BridgeFits(t.bridges[i], t.spread)
    {
      SpreadFits(f.bridges[i], m, i in to, f.spread);
    }
  }

  // ------------------------------------------------------------------ what a round does

  // The first and the last socket on which bridge `i` is sent something, among the first `n`.
  function First(links: seq<Link>, seen: seq<Seen>, i: nat, n: nat): Option<nat>
    requires n <= |seen|
  {
    if n == 0 then None
    else
      var before := First(links, seen, i, n - 1);
      if before.Some? then before else if Reaches(links, seen, i, n - 1) then Some(n - 1) else None
  }

  function Last(links: seq<Link>, seen: seq<Seen>, i: nat, n: nat): Option<nat>
    requires n <= |seen|
  {
    if n == 0 then None
    else if Reaches(links, seen, i, n - 1) then Some(n - 1) else Last(links, seen, i, n - 1)
  }

  // The round tells the bridge anything.
  predicate Told(f: Fleet, s: Scan, i: nat) { Last(f.links, s.seen, i, |s.seen|).Some? }

  // The last thing it tells the bridge is that it leads.
  predicate Leads(f: Fleet, s: Scan, i: nat) {
    Told(f, s, i) && Elected(SocketsOf(s.seen), s.now, Last(f.links, s.seen, i, |s.seen|).value)
  }

  // The first thing a bridge that knows no role hears from it is that it leads.
  predicate TakesOver(f: Fleet, s: Scan, i: nat)
    requires i < |f.bridges|
  {
    var x := First(f.links, s.seen, i, |s.seen|);
    !f.bridges[i].leaderKnown && x.Some? && Elected(SocketsOf(s.seen), s.now, x.value)
  }

  lemma {:induction false} FirstAndLastReach(links: seq<Link>, seen: seq<Seen>, i: nat, n: nat)
    requires n <= |seen|
    ensures var x, y := First(links, seen, i, n), Last(links, seen, i, n);
      && (x.Some? <==> y.Some?)
      && (x.Some? ==> x.value < n && Reaches(links, seen, i, x.value))
      && (y.Some? ==> y.value < n && Reaches(links, seen, i, y.value))
  {
    if n != 0 { FirstAndLastReach(links, seen, i, n - 1); }
  }

  // What the bridge makes of all it is sent.
  lemma {:induction false} HeardInOrder(
      b: Bridge, links: seq<Link>, seen: seq<Seen>, now: int, i: nat, n: nat, spread: set<Msg>)
    requires n <= |seen| && BridgeFits(b, spread)
    ensures var c := Hears(b, links, seen, now, i, n);
      var x, y := First(links, seen, i, n), Last(links, seen, i, n);
      && BridgeFits(c, spread)
      && (y.None? ==> c == b)
      && (y.Some? ==> c.leaderKnown && c.isLeader == Elected(SocketsOf(seen), now, y.value))
      && var takesOver := !b.leaderKnown && x.Some? && Elected(SocketsOf(seen), now, x.value);
         c.dispatched == b.dispatched + (if takesOver then b.pending else [])
  {
    FirstAndLastReach(links, seen, i, n);
    if n == 0 {
      assert b.dispatched + [] == b.dispatched;
    } else {
      HeardInOrder(b, links, seen, now, i, n - 1, spread);
      FirstAndLastReach(links, seen, i, n - 1);
      var c := Hears(b, links, seen, now, i, n - 1);
      BridgeStepKeeps(c, LeaderStatus(Elected(SocketsOf(seen), now, n - 1)));
    }
  }

  predicate SameServer(f: Fleet, i: nat, j: nat) {
    i < |f.sids| && j < |f.sids| && i != j && f.sids[i] == f.sids[j]
  }

  // No round tells two bridges of a workspace that they lead.
  lemma OneIsElected(f: Fleet, s: Scan, i: nat, j: nat, x: nat, y: nat)
    requires LinksFit(f.links, f.sids) && ScanFits(s, f.links) && SameServer(f, i, j)
    requires Reaches(f.links, s.seen, i, x) && Reaches(f.links, s.seen, j, y)
    ensures !(Elected(SocketsOf(s.seen), s.now, x) && Elected(SocketsOf(s.seen), s.now, y))
  {
    assert SeenFits(s.seen[x], f.links) && SeenFits(s.seen[y], f.links);
    assert LinkFits(f.links[s.seen[x].k], f.sids) && LinkFits(f.links[s.seen[y].k], f.sids);
    assert x != y;
  }

  lemma OneLeads(f: Fleet, r: nat, i: nat, j: nat)
    requires Inv(f) && r < |f.scans| && SameServer(f, i, j)
    ensures !(Leads(f, f.scans[r], i) && Leads(f, f.scans[r], j))
    ensures !(TakesOver(f, f.scans[r], i) && TakesOver(f, f.scans[r], j))
  {
    var s := f.scans[r];
    assert ScanFits(s, f.links);
    FirstAndLastReach(f.links, s.seen, i, |s.seen|);
    FirstAndLastReach(f.links, s.seen, j, |s.seen|);
    if Told(f, s, i) && Told(f, s, j) {
      OneIsElected(f, s, i, j, Last(f.links, s.seen, i, |s.seen|).value, Last(f.links, s.seen, j, |s.seen|).value);
      OneIsElected(f, s, i, j, First(f.links, s.seen, i, |s.seen|).value, First(f.links, s.seen, j, |s.seen|).value);
    }
  }

  // A bridge the round reaches leads exactly if told so; the others stay as they are.
  lemma SendRoles(f: Fleet, r: nat, i: nat)
    requires Inv(f) && r < |f.scans| && i < |f.bridges|
    ensures var t, s := SendStep(f, r), f.scans[r];
      && (WillDispatch(t.bridges[i]) <==> if Told(f, s, i) then Leads(f, s, i) else WillDispatch(f.bridges[i]))
      && BridgeFits(t.bridges[i], f.spread)
      && t.bridges[i].dispatched
         == f.bridges[i].dispatched + (if TakesOver(f, s, i) then f.bridges[i].pending else [])
  {
    var s := f.scans[r];
    HeardInOrder(f.bridges[i], f.links, s.seen, s.now, i, |s.seen|, f.spread);
  }

  lemma SendKeeps(f: Fleet, r: nat)
    requires Inv(f) && r < |f.scans|
    ensures Inv(SendStep(f, r))
  {
    var t := SendStep(f, r);
    forall i | 0 <= i < |t.bridges| ensures BridgeFits(t.bridges[i], t.spread) { SendRoles(f, r, i); }
    assert ScanFits(f.scans[r], f.links);
    assert ScanFits(t.scans[r], t.links);
  }

  lemma StepKeeps(f: Fleet, e: Event)
    requires Inv(f)
    ensures Inv(Step(f, e))
  {
    match e
    case Boots(serverId) => BootKeeps(f, serverId);
    case Opens(i, at, latest) => if i < |f.sids| { OpenKeeps(f, i, at, latest); }
    case OpenFails(i) => if i < |f.bridges| { ForgetKeeps(f, i); }
    case Closes(k) => if k < |f.links| && f.links[k].owner.Some? { CloseKeeps(f, k); }
    case Refreshes(i) => if i < |f.current| { RefreshKeeps(f, i); }
    case Reopens(i) =>
    case Dropped(k) =>
      if k < |f.links| {
        assert LinkFits(f.links[k], f.sids);
        SocketKeeps(f, k, f.links[k].(listed := false));
      }
    case Beats(k, at) =>
      if k < |f.links| {
        assert LinkFits(f.links[k], f.sids);
        SocketKeeps(f, k, f.links[k].(socket := f.links[k].socket.(lastHeartbeatAt := Some(at))));
      }
    case Revoked(k) =>
      if k < |f.links| {
        assert LinkFits(f.links[k], f.sids);
        SocketKeeps(f, k, f.links[k].(socket := f.links[k].socket.(revoked := true)));
      }
    case RoundStarts(now) => StartKeeps(f, now);
    case RoundLooks(r) => if r < |f.scans| && f.scans[r].todo != [] { LookKeeps(f, r); }
    case RoundSends(r) => if r < |f.scans| { SendKeeps(f, r); }
    case Spread(m, to) => if m !in f.spread { SpreadKeeps(f, m, to); }
  }

  lemma {:induction false} RunKeeps(f: Fleet, events: seq<Event>)
    requires Inv(f)
    ensures Inv(Run(f, events))
    decreases |events|
  {
    if events != [] {
      RunKeeps(f, events[..|events| - 1]);
      StepKeeps(Run(f, events[..|events| - 1]), events[|events| - 1]);
    }
  }

  // A bridge that the round reaches on one socket only.
  lemma {:induction false} HearsOnce(
      b: Bridge, links: seq<Link>, seen: seq<Seen>, now: int, i: nat, n: nat, x: nat)
    requires n <= |seen| && forall y :: 0 <= y < n && Reaches(links, seen, i, y) ==> y == x
    ensures Hears(b, links, seen, now, i, n)
         == if x < n && Reaches(links, seen, i, x) then OnStatus(b, Elected(SocketsOf(seen), now, x)) else b
  {
    if n != 0 { HearsOnce(b, links, seen, now, i, n - 1, x); }
  }

  /** A bridge with one socket hears what the gateway's election tells that socket, computed
   *  over the sockets as the round found them. */
  lemma RoundDeliversTheElection(f: Fleet, r: nat, told: seq<Option<bool>>, i: nat, x: nat)
    requires Inv(f) && r < |f.scans| && i < |f.bridges| && x < |f.scans[r].seen|
    requires TellsElection(SocketsOf(f.scans[r].seen), f.scans[r].now, told)
    requires Reaches(f.links, f.scans[r].seen, i, x)
    requires forall y :: 0 <= y < |f.scans[r].seen| && Reaches(f.links, f.scans[r].seen, i, y) ==> y == x
    ensures told[x].Some? && SendStep(f, r).bridges[i] == OnStatus(f.bridges[i], told[x].value)
  {
    var s := f.scans[r];
    assert ScanFits(s, f.links);
    assert SeenFits(s.seen[x], f.links);
    HearsOnce(f.bridges[i], f.links, s.seen, s.now, i, |s.seen|, x);
  }
}
