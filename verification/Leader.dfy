/** Which of a user's bridges answers: the gateway elects one per workspace, and every
 * bridge dispatches only while it has been told that it leads. */
module Leader {
  import opened Wrappers

  const LIVENESS_WINDOW_MS: int := 45_000
  const MAX_BUFFERED: nat := 100

  // ------------------------------------------------------------- the election

  // A gateway socket; `connectedAt` is a wall-clock time and so not negative.
  datatype Socket = Socket(isBridge: bool, revoked: bool, serverId: string,
                           connectedAt: nat, lastHeartbeatAt: Option<int>)
  {
    predicate Listens() { isBridge && !revoked }

    predicate Live(now: int) {
      now - (if lastHeartbeatAt.Some? then lastHeartbeatAt.value else connectedAt) < LIVENESS_WINDOW_MS
    }
  }

  predicate Candidate(sockets: seq<Socket>, now: int, i: nat) {
    i < |sockets| && sockets[i].Listens() && sockets[i].Live(now)
  }

  // The most recently connected candidate of its workspace, the first of equals.
  predicate Elected(sockets: seq<Socket>, now: int, i: nat) {
    && Candidate(sockets, now, i)
    && forall j :: 0 <= j < |sockets| && Candidate(sockets, now, j) && sockets[j].serverId == sockets[i].serverId ==>
         sockets[j].connectedAt < sockets[i].connectedAt
         || (sockets[j].connectedAt == sockets[i].connectedAt && i <= j)
  }

  /** One round over the open sockets: what each is told, if anything. */
  method BroadcastLeaderStatus(sockets: seq<Socket>, now: int) returns (told: seq<Option<bool>>)
    ensures TellsElection(sockets, now, told)
  {
    var byServer, leaderByServer := GroupAndElect(sockets, now);
    told := seq(|sockets|, _ => None);
    var rest := byServer.Keys;
    while rest != {}
      invariant rest <= byServer.Keys && |told| == |sockets|
      invariant forall i :: 0 <= i < |sockets| ==>
                  told[i] == if sockets[i].Listens() && sockets[i].serverId !in rest
                             then Some(Elected(sockets, now, i)) else None
      decreases rest
    {
      var sid :| sid in rest;
      assert AllOf(sockets, byServer[sid], sid, |sockets|);
      told := TellGroup(sockets, now, byServer[sid], leaderByServer, sid, told);
      rest := rest - {sid};
    }
  }

  ghost predicate TellsElection(sockets: seq<Socket>, now: int, told: seq<Option<bool>>) {
    && |told| == |sockets|
    && forall i :: 0 <= i < |sockets| ==>
         told[i] == if sockets[i].Listens() then Some(Elected(sockets, now, i)) else None
  }

  // The loop that fills the maps.
  method GroupAndElect(sockets: seq<Socket>, now: int)
      returns (byServer: map<string, seq<nat>>, leaderByServer: map<string, nat>)
    ensures Grouped(sockets, byServer, |sockets|)
    ensures HasLeaders(sockets, now, leaderByServer, |sockets|)
  {
    var bestByServer: map<string, nat> := map[];
    byServer, leaderByServer := map[], map[];
    for i := 0 to |sockets|
      invariant Grouped(sockets, byServer, i)
      invariant HasLeaders(sockets, now, leaderByServer, i)
      invariant Bests(sockets, leaderByServer, bestByServer)
    {
      var a := sockets[i];
      GroupedSnoc(sockets, byServer, i);
      if a.Listens() {
        var group := if a.serverId in byServer then byServer[a.serverId] else [];
        LeadersSnoc(sockets, now, leaderByServer, i);
        byServer := byServer[a.serverId := group + [i]];
        if a.Live(now) && (a.serverId !in bestByServer || a.connectedAt > bestByServer[a.serverId]) {
          bestByServer := bestByServer[a.serverId := a.connectedAt];
          leaderByServer := leaderByServer[a.serverId := i];
        }
      }
    }
  }

  ghost predicate Bests(sockets: seq<Socket>, leaders: map<string, nat>, bests: map<string, nat>) {
    && leaders.Keys == bests.Keys
    && forall sid :: sid in leaders ==> leaders[sid] < |sockets| && bests[sid] == sockets[leaders[sid]].connectedAt
  }

  // How the next candidate changes the choice for its workspace.
  lemma LeadersSnoc(sockets: seq<Socket>, now: int, leaders: map<string, nat>, i: nat)
    requires i < |sockets| && sockets[i].Listens() && HasLeaders(sockets, now, leaders, i)
    ensures var sid := sockets[i].serverId;
      if sockets[i].Live(now) && (sid !in leaders || sockets[i].connectedAt > sockets[leaders[sid]].connectedAt)
      then HasLeaders(sockets, now, leaders[sid := i], i + 1)
      else HasLeaders(sockets, now, leaders, i + 1)
  {
    var sid := sockets[i].serverId;
    forall other | other in leaders && other != sid
      ensures LeadsSoFar(sockets, now, other, leaders[other], i + 1)
    {
      assert LeadsSoFar(sockets, now, other, leaders[other], i);
    }
    if sid in leaders { assert LeadsSoFar(sockets, now, sid, leaders[sid], i); }
  }

  // The loop over one workspace's sockets.
  method TellGroup(sockets: seq<Socket>, now: int, group: seq<nat>, leaderByServer: map<string, nat>,
                   sid: string, before: seq<Option<bool>>) returns (told: seq<Option<bool>>)
    requires |before| == |sockets| && HasLeaders(sockets, now, leaderByServer, |sockets|)
    requires forall i :: i in group ==> i < |sockets| && sockets[i].Listens() && sockets[i].serverId == sid
    ensures |told| == |sockets|
    ensures forall i :: 0 <= i < |sockets| ==>
              told[i] == if i in group then Some(Elected(sockets, now, i)) else before[i]
  {
    told := before;
    for g := 0 to |group|
      invariant |told| == |sockets|
      invariant forall i :: 0 <= i < |sockets| ==>
                  told[i] == if i in group[..g] then Some(Elected(sockets, now, i)) else before[i]
    {
      var i := group[g];
      assert i in group;
      var isLeader := sockets[i].Live(now) && sid in leaderByServer && leaderByServer[sid] == i;
      OnlyTheMapsChoice(sockets, now, leaderByServer, i);
      told := told[i := Some(isLeader)];
      assert group[..g + 1] == group[..g] + [i];
    }
    assert group[..|group|] == group;
  }

  lemma OnlyTheMapsChoice(sockets: seq<Socket>, now: int, leaderByServer: map<string, nat>, i: nat)
    requires HasLeaders(sockets, now, leaderByServer, |sockets|) && i < |sockets| && sockets[i].Listens()
    ensures var sid := sockets[i].serverId;
      Elected(sockets, now, i) <==> sockets[i].Live(now) && sid in leaderByServer && leaderByServer[sid] == i
  {
  }

  ghost predicate AllOf(sockets: seq<Socket>, group: seq<nat>, sid: string, n: nat)
    requires n <= |sockets|
  {
    forall g :: 0 <= g < |group| ==> group[g] < n && sockets[group[g]].Listens() && sockets[group[g]].serverId == sid
  }

  ghost predicate OnlyTheirs(sockets: seq<Socket>, byServer: map<string, seq<nat>>, n: nat)
    requires n <= |sockets|
  {
    forall sid :: sid in byServer ==> AllOf(sockets, byServer[sid], sid, n)
  }

  predicate InItsGroup(sockets: seq<Socket>, byServer: map<string, seq<nat>>, i: nat)
    requires i < |sockets|
  {
    sockets[i].serverId in byServer && i in byServer[sockets[i].serverId]
  }

  // Each listening socket before `n` is in the group of its workspace, and nothing else is.
  ghost predicate Grouped(sockets: seq<Socket>, byServer: map<string, seq<nat>>, n: nat)
    requires n <= |sockets|
  {
    && OnlyTheirs(sockets, byServer, n)
    && (forall i :: 0 <= i < n && sockets[i].Listens() ==> InItsGroup(sockets, byServer, i))
  }

  lemma TheirsSnoc(sockets: seq<Socket>, byServer: map<string, seq<nat>>, group: seq<nat>, i: nat)
    requires i < |sockets| && OnlyTheirs(sockets, byServer, i) && sockets[i].Listens()
    requires AllOf(sockets, group, sockets[i].serverId, i)
    ensures OnlyTheirs(sockets, byServer[sockets[i].serverId := group + [i]], i + 1)
  {
    assert AllOf(sockets, group + [i], sockets[i].serverId, i + 1);
  }

  lemma GroupedSnoc(sockets: seq<Socket>, byServer: map<string, seq<nat>>, i: nat)
    requires i < |sockets| && Grouped(sockets, byServer, i)
    ensures var sid := sockets[i].serverId;
      var group := if sid in byServer then byServer[sid] else [];
      if sockets[i].Listens() then Grouped(sockets, byServer[sid := group + [i]], i + 1)
      else Grouped(sockets, byServer, i + 1)
  {
    var own := sockets[i].serverId;
    var group := if own in byServer then byServer[own] else [];
    if sockets[i].Listens() {
      TheirsSnoc(sockets, byServer, group, i);
      forall j | 0 <= j < i + 1 && sockets[j].Listens()
        ensures InItsGroup(sockets, byServer[own := group + [i]], j)
      {
        if j == i { assert (group + [i])[|group|] == i; }
        else { assert InItsGroup(sockets, byServer, j); }
      }
    }
  }

  // `i` is elected among the first `n` sockets.
  ghost predicate LeadsSoFar(sockets: seq<Socket>, now: int, sid: string, i: nat, n: nat)
    requires n <= |sockets|
  {
    && i < n && Candidate(sockets, now, i) && sockets[i].serverId == sid
    && forall j :: 0 <= j < n && Candidate(sockets, now, j) && sockets[j].serverId == sid ==>
         sockets[j].connectedAt < sockets[i].connectedAt
         || (sockets[j].connectedAt == sockets[i].connectedAt && i <= j)
  }

  // A leader for every workspace with a candidate among the first `n` sockets.
  ghost predicate HasLeaders(sockets: seq<Socket>, now: int, leaderByServer: map<string, nat>, n: nat)
    requires n <= |sockets|
  {
    && (forall sid :: sid in leaderByServer ==> LeadsSoFar(sockets, now, sid, leaderByServer[sid], n))
    && (forall j :: 0 <= j < n && Candidate(sockets, now, j) ==> sockets[j].serverId in leaderByServer)
  }

  /** A workspace with a live bridge has exactly one leader, of maximal connection time. */
  lemma {:induction false} OneLeaderPerWorkspace(sockets: seq<Socket>, now: int, i: nat) returns (leader: nat)
    requires Candidate(sockets, now, i)
    ensures Elected(sockets, now, leader) && sockets[leader].serverId == sockets[i].serverId
    ensures forall j :: (0 <= j < |sockets| && Elected(sockets, now, j)
                         && sockets[j].serverId == sockets[i].serverId) ==> j == leader
    ensures sockets[i].connectedAt <= sockets[leader].connectedAt
  {
    leader := i;
    for n := 0 to |sockets|
      invariant Candidate(sockets, now, leader) && sockets[leader].serverId == sockets[i].serverId
      invariant sockets[i].connectedAt <= sockets[leader].connectedAt
      invariant forall j :: 0 <= j < n && Candidate(sockets, now, j) && sockets[j].serverId == sockets[i].serverId ==>
                  sockets[j].connectedAt < sockets[leader].connectedAt
                  || (sockets[j].connectedAt == sockets[leader].connectedAt && leader <= j)
    {
      if Candidate(sockets, now, n) && sockets[n].serverId == sockets[i].serverId
         && (sockets[n].connectedAt > sockets[leader].connectedAt
             || (sockets[n].connectedAt == sockets[leader].connectedAt && n < leader)) {
        leader := n;
      }
    }
  }

  // ----------------------------------------------------------------- one bridge

  type Msg = nat

  /** `received` and `dispatched` are histories of the human messages that reached the
   *  bridge and of those it passed on to its agents. */
  datatype Bridge = Bridge(isLeader: bool, leaderKnown: bool, pending: seq<Msg>,
                           received: seq<Msg>, dispatched: seq<Msg>)

  const NewBridge := Bridge(false, false, [], [], [])

  datatype BridgeEvent = Message(m: Msg, human: bool) | LeaderStatus(isLeader: bool) | GatewayCloses

  function OnMessage(b: Bridge, m: Msg, human: bool): Bridge {
    if !human then b
    else
      var c := b.(received := b.received + [m]);
      if !b.leaderKnown then (if |b.pending| < MAX_BUFFERED then c.(pending := b.pending + [m]) else c)
      else if !b.isLeader then c
      else c.(dispatched := b.dispatched + [m])
  }

  function OnStatus(b: Bridge, isLeader: bool): Bridge {
    var c := b.(leaderKnown := true, isLeader := isLeader);
    if !b.leaderKnown && isLeader && |b.pending| > 0 then c.(pending := [], dispatched := b.dispatched + b.pending)
    else if !isLeader then c.(pending := [])
    else c
  }

  function OnClose(b: Bridge): Bridge { b.(isLeader := false, leaderKnown := false, pending := []) }

  function BridgeStep(b: Bridge, e: BridgeEvent): Bridge {
    match e
    case Message(m, human) => OnMessage(b, m, human)
    case LeaderStatus(isLeader) => OnStatus(b, isLeader)
    case GatewayCloses => OnClose(b)
  }

  function BridgeRun(events: seq<BridgeEvent>): Bridge
    decreases |events|
  {
    if events == [] then NewBridge
    else BridgeStep(BridgeRun(events[..|events| - 1]), events[|events| - 1])
  }

  // `a` is `b` with some elements left out.
  predicate Subsequence(a: seq<Msg>, b: seq<Msg>)
    decreases |b|
  {
    a == [] || (b != [] &&
      if a[|a| - 1] == b[|b| - 1] && Subsequence(a[..|a| - 1], b[..|b| - 1]) then true
      else Subsequence(a, b[..|b| - 1]))
  }

  lemma {:induction false} SubsequencePrefix(a: seq<Msg>, b: seq<Msg>, n: nat)
    requires Subsequence(a, b) && n <= |a|
    ensures Subsequence(a[..n], b)
    decreases |b|
  {
    if n == |a| { assert a[..n] == a; }
    else if n > 0 {
      var front := b[..|b| - 1];
      if a[|a| - 1] == b[|b| - 1] && Subsequence(a[..|a| - 1], front) {
        SubsequencePrefix(a[..|a| - 1], front, n);
        assert a[..|a| - 1][..n] == a[..n];
      } else {
        SubsequencePrefix(a, front, n);
      }
    }
  }

  lemma SubsequenceSnoc(a: seq<Msg>, b: seq<Msg>, m: Msg)
    requires Subsequence(a, b)
    ensures Subsequence(a, b + [m]) && Subsequence(a + [m], b + [m])
  {
    assert (b + [m])[..|b|] == b && (a + [m])[..|a|] == a;
  }

  ghost predicate BridgeInv(b: Bridge) {
    && (b.leaderKnown ==> b.pending == [])
    && (b.isLeader ==> b.leaderKnown)
    && |b.pending| <= MAX_BUFFERED
    && Subsequence(b.dispatched + b.pending, b.received)
  }

  lemma BridgeStepKeeps(b: Bridge, e: BridgeEvent)
    requires BridgeInv(b)
    ensures BridgeInv(BridgeStep(b, e))
  {
    var c := BridgeStep(b, e);
    var all := b.dispatched + b.pending;
    match e
    case Message(m, human) =>
      SubsequenceSnoc(all, b.received, m);
      assert human && c.pending != b.pending ==> c.dispatched + c.pending == all + [m];
      assert human && c.dispatched != b.dispatched ==> c.dispatched + c.pending == all + [m];
    case LeaderStatus(isLeader) =>
      SubsequencePrefix(all, b.received, |b.dispatched|);
      assert all[..|b.dispatched|] == b.dispatched == b.dispatched + [];
      assert all + [] == all;
    case GatewayCloses =>
      SubsequencePrefix(all, b.received, |b.dispatched|);
      assert all[..|b.dispatched|] == b.dispatched == b.dispatched + [];
  }

  /** In every run a bridge that knows its role buffers nothing, the buffer is bounded, and
   *  what was dispatched, then what is buffered, are received messages in order, each once. */
  lemma {:induction false} BridgeRunKeeps(events: seq<BridgeEvent>)
    ensures BridgeInv(BridgeRun(events))
    decreases |events|
  {
    if events != [] {
      BridgeRunKeeps(events[..|events| - 1]);
      BridgeStepKeeps(BridgeRun(events[..|events| - 1]), events[|events| - 1]);
    } else {
      assert NewBridge.dispatched + NewBridge.pending == [];
    }
  }

  // Passes a message on as soon as it hears it.
  predicate WillDispatch(b: Bridge) { b.leaderKnown && b.isLeader }
}
