/** Who may read a channel: the pointwise policy with its memo cache, the set query that
 * is meant to agree with it, and the list of channels whose tasks may be managed. */
module Visibility {

  type Id(==) = string

  datatype MemberType = Human | Agent
  datatype ChannelType = Public | Private | Dm

  datatype Channel = Channel(serverId: Id, kind: ChannelType, archived: bool)
  datatype ChannelMember = ChannelMember(channelId: Id, memberId: Id, memberType: MemberType)
  datatype ServerMember = ServerMember(serverId: Id, memberId: Id, memberType: MemberType, isAdmin: bool)
  datatype AgentRow = AgentRow(ownerId: Id, serverId: Id)

  // The tables; `servers` maps a server to its owner.
  datatype Db = Db(
    servers: map<Id, Id>,
    serverMembers: set<ServerMember>,
    channels: map<Id, Channel>,
    channelMembers: set<ChannelMember>,
    agents: map<Id, AgentRow>)

  // The foreign keys these queries rely on.
  predicate Consistent(db: Db) {
    && (forall m :: m in db.channelMembers ==> m.channelId in db.channels)
    && (forall c :: c in db.channels ==> db.channels[c].serverId in db.servers)
  }

  datatype Subject =
    | User(userId: Id)
    | Bridge(userId: Id, serverId: Id, agentIds: seq<Id>)
    | Machine(userId: Id, serverId: Id)

  // ------------------------------------------------------- the memoized checks

  datatype Check =
    | UserIsServerMember(serverId: Id)
    | UserIsServerOwner(serverId: Id)
    | UserIsServerAdminOrOwner(serverId: Id)
    | UserOwnsAgent(agentId: Id)
    | AgentBelongsToVisibleServer(agentId: Id)
    | UserIsChannelMember(channelId: Id)
    | UserHasAgentInChannel(channelId: Id)
    | AgentIsChannelMember(agentId: Id, channelId: Id)
    | BridgeHasAgentInChannel(channelId: Id)
    | ChannelIsPublic(channelId: Id)
    | ChannelInServer(channelId: Id, serverId: Id)

  function Tag(q: Check): string {
    match q
    case UserIsServerMember(_) => "sm"
    case UserIsServerOwner(_) => "so"
    case UserIsServerAdminOrOwner(_) => "sao"
    case UserOwnsAgent(_) => "oa"
    case AgentBelongsToVisibleServer(_) => "avs"
    case UserIsChannelMember(_) => "cm"
    case UserHasAgentInChannel(_) => "uac"
    case AgentIsChannelMember(_, _) => "acm"
    case BridgeHasAgentInChannel(_) => "bac"
    case ChannelIsPublic(_) => "cpub"
    case ChannelInServer(_, _) => "cis"
  }

  function Joined(first: Id, second: Id): string { first + ":" + second }

  function Rest(q: Check): string {
    match q
    case AgentIsChannelMember(agentId, channelId) => Joined(agentId, channelId)
    case ChannelInServer(channelId, serverId) => Joined(channelId, serverId)
    case UserIsServerMember(id) => id
    case UserIsServerOwner(id) => id
    case UserIsServerAdminOrOwner(id) => id
    case UserOwnsAgent(id) => id
    case AgentBelongsToVisibleServer(id) => id
    case UserIsChannelMember(id) => id
    case UserHasAgentInChannel(id) => id
    case BridgeHasAgentInChannel(id) => id
    case ChannelIsPublic(id) => id
  }

  // The cache key: a tag, then the ids, joined by colons.
  function Key(q: Check): string { Tag(q) + ":" + Rest(q) }

  predicate OwnsAgentIn(db: Db, userId: Id, m: ChannelMember) {
    m.memberType == Agent && m.memberId in db.agents && db.agents[m.memberId].ownerId == userId
  }

  predicate IsServerRow(m: ServerMember, serverId: Id, userId: Id) {
    m.serverId == serverId && m.memberId == userId && m.memberType == Human
  }

  // The query behind each check.
  predicate Answer(db: Db, s: Subject, q: Check) {
    match q
    case UserIsServerMember(id) =>
      exists m :: m in db.serverMembers && IsServerRow(m, id, s.userId)
    case UserIsServerOwner(id) => id in db.servers && db.servers[id] == s.userId
    case UserIsServerAdminOrOwner(id) =>
      exists m :: m in db.serverMembers && IsServerRow(m, id, s.userId) && m.isAdmin
    case UserOwnsAgent(id) => id in db.agents && db.agents[id].ownerId == s.userId
    case AgentBelongsToVisibleServer(id) =>
      id in db.agents && exists m :: m in db.serverMembers && IsServerRow(m, db.agents[id].serverId, s.userId)
    case UserIsChannelMember(id) => ChannelMember(id, s.userId, Human) in db.channelMembers
    case UserHasAgentInChannel(id) =>
      exists m :: m in db.channelMembers && m.channelId == id && OwnsAgentIn(db, s.userId, m)
    case AgentIsChannelMember(agentId, id) => ChannelMember(id, agentId, Agent) in db.channelMembers
    case BridgeHasAgentInChannel(id) =>
      s.Bridge? && exists m :: m in db.channelMembers && m.channelId == id && IsBridgeRow(m, s) && m.memberId != ""
    case ChannelIsPublic(id) => id in db.channels && db.channels[id].kind == Public
    case ChannelInServer(id, serverId) => id in db.channels && db.channels[id].serverId == serverId
  }

  predicate IsBridgeRow(m: ChannelMember, s: Subject)
    requires s.Bridge?
  {
    m.memberType == Agent && m.memberId in s.agentIds
  }

  // ---------------------------------------------------------------- the policy

  predicate InScope(db: Db, s: Subject, id: Id) {
    s.User? || Answer(db, s, ChannelInServer(id, s.serverId))
  }

  predicate PublicAndServerMember(db: Db, s: Subject, id: Id) {
    Answer(db, s, ChannelIsPublic(id)) && Answer(db, s, UserIsServerMember(db.channels[id].serverId))
  }

  // policy.channels.canRead, without the cache.
  predicate CanRead(db: Db, s: Subject, id: Id) {
    InScope(db, s, id) &&
    if s.Bridge? then Answer(db, s, BridgeHasAgentInChannel(id))
    else || Answer(db, s, UserIsChannelMember(id))
         || Answer(db, s, UserHasAgentInChannel(id))
         || PublicAndServerMember(db, s, id)
  }

  // policy.tasks.canManage, without the cache.
  predicate CanManage(db: Db, s: Subject, id: Id) {
    InScope(db, s, id) &&
    if s.Bridge? then Answer(db, s, BridgeHasAgentInChannel(id))
    else s.User? && (Answer(db, s, UserIsChannelMember(id)) || Answer(db, s, UserHasAgentInChannel(id)))
  }

  // ------------------------------------------------------- the policy, by stored rows

  /** Whose channel it is, told from the rows alone: the user's, by a member row of their own or
   *  one of an agent that they own. */
  ghost predicate IsTheirs(db: Db, userId: Id, id: Id) {
    || (exists m :: m in db.channelMembers && m.channelId == id && m.memberType == Human && m.memberId == userId)
    || (exists m :: m in db.channelMembers && m.channelId == id && m.memberType == Agent
                    && m.memberId in db.agents && db.agents[m.memberId].ownerId == userId)
  }

  ghost predicate IsOpenTo(db: Db, userId: Id, id: Id) {
    id in db.channels && db.channels[id].kind == Public
    && exists m :: m in db.serverMembers && m.serverId == db.channels[id].serverId
                   && m.memberType == Human && m.memberId == userId
  }

  ghost predicate IsOfAgents(db: Db, agentIds: seq<Id>, id: Id) {
    exists m :: m in db.channelMembers && m.channelId == id && m.memberType == Agent
                && m.memberId in agentIds && m.memberId != ""
  }

  ghost predicate MayRead(db: Db, s: Subject, id: Id) {
    match s
    case User(userId) => IsTheirs(db, userId, id) || IsOpenTo(db, userId, id)
    case Machine(userId, serverId) =>
      IsChannelOf(db, id, serverId) && (IsTheirs(db, userId, id) || IsOpenTo(db, userId, id))
    case Bridge(_, serverId, agentIds) => IsChannelOf(db, id, serverId) && IsOfAgents(db, agentIds, id)
  }

  ghost predicate MayManage(db: Db, s: Subject, id: Id) {
    match s
    case User(userId) => IsTheirs(db, userId, id)
    case Machine(_, _) => false
    case Bridge(_, serverId, agentIds) => IsChannelOf(db, id, serverId) && IsOfAgents(db, agentIds, id)
  }

  lemma TheirsByRows(db: Db, s: Subject, id: Id)
    ensures Answer(db, s, UserIsChannelMember(id)) || Answer(db, s, UserHasAgentInChannel(id))
            <==> IsTheirs(db, s.userId, id)
    ensures PublicAndServerMember(db, s, id) <==> IsOpenTo(db, s.userId, id)
  {
    if IsTheirs(db, s.userId, id) && !Answer(db, s, UserHasAgentInChannel(id)) {
      var m :| m in db.channelMembers && m.channelId == id
               && (m.memberType == Human || (m.memberId in db.agents && db.agents[m.memberId].ownerId == s.userId))
               && (m.memberType == Human ==> m.memberId == s.userId);
      assert m.memberType == Agent ==> OwnsAgentIn(db, s.userId, m);
      assert m == ChannelMember(id, s.userId, Human);
    }
    if Answer(db, s, UserIsChannelMember(id)) { assert ChannelMember(id, s.userId, Human) in db.channelMembers; }
    if IsOpenTo(db, s.userId, id) {
      var m :| m in db.serverMembers && m.serverId == db.channels[id].serverId
               && m.memberType == Human && m.memberId == s.userId;
      assert IsServerRow(m, db.channels[id].serverId, s.userId);
    }
  }

  lemma AgentsByRows(db: Db, s: Subject, id: Id)
    requires s.Bridge?
    ensures Answer(db, s, BridgeHasAgentInChannel(id)) <==> IsOfAgents(db, s.agentIds, id)
  {
    if IsOfAgents(db, s.agentIds, id) {
      var m :| m in db.channelMembers && m.channelId == id && m.memberType == Agent
               && m.memberId in s.agentIds && m.memberId != "";
      assert IsBridgeRow(m, s);
    }
  }

  // The checks of a server and of an agent, by rows.
  lemma ServerChecksByRows(db: Db, s: Subject, id: Id)
    ensures Answer(db, s, UserIsServerOwner(id)) <==> (id, s.userId) in db.servers.Items
    ensures Answer(db, s, UserOwnsAgent(id)) <==> exists row :: (id, row) in db.agents.Items && row.ownerId == s.userId
    ensures Answer(db, s, UserIsServerAdminOrOwner(id)) <==>
              ServerMember(id, s.userId, Human, true) in db.serverMembers
    ensures Answer(db, s, UserIsServerMember(id)) <==>
              || ServerMember(id, s.userId, Human, true) in db.serverMembers
              || ServerMember(id, s.userId, Human, false) in db.serverMembers
    ensures Answer(db, s, AgentBelongsToVisibleServer(id)) <==>
              exists row :: (id, row) in db.agents.Items && Answer(db, s, UserIsServerMember(row.serverId))
  {
    assert forall m: ServerMember :: IsServerRow(m, id, s.userId) ==> m == ServerMember(id, s.userId, Human, m.isAdmin);
    assert IsServerRow(ServerMember(id, s.userId, Human, true), id, s.userId);
    assert IsServerRow(ServerMember(id, s.userId, Human, false), id, s.userId);
    if id in db.agents { assert (id, db.agents[id]) in db.agents.Items; }
  }

  /** The read policy lets in exactly those the rows entitle. */
  lemma ReadExactlyByRows(db: Db, s: Subject, id: Id)
    ensures CanRead(db, s, id) <==> MayRead(db, s, id)
  {
    TheirsByRows(db, s, id);
    if s.Bridge? { AgentsByRows(db, s, id); }
  }

  /** So does the manage policy: members, owners of member agents, and bridges of member agents. */
  lemma ManageExactlyByRows(db: Db, s: Subject, id: Id)
    ensures CanManage(db, s, id) <==> MayManage(db, s, id)
    ensures MayManage(db, s, id) ==> MayRead(db, s, id)
  {
    TheirsByRows(db, s, id);
    if s.Bridge? { AgentsByRows(db, s, id); }
  }

  // ----------------------------------------------------------------- the cache

  type Cache = map<string, bool>

  // memo: the answer and the cache afterwards.
  function Memo(cache: Cache, db: Db, s: Subject, q: Check): (Cache, bool) {
    if Key(q) in cache then (cache, cache[Key(q)])
    else (cache[Key(q) := Answer(db, s, q)], Answer(db, s, q))
  }

  predicate IsAgentRow(db: Db, agentId: Id, channelId: Id) {
    ChannelMember(channelId, agentId, Agent) in db.channelMembers
  }

  predicate IsChannelOf(db: Db, channelId: Id, serverId: Id) {
    channelId in db.channels && db.channels[channelId].serverId == serverId
  }

  /** Wherever the ids of a stored row, joined by a colon, can be cut at a colon, the two parts
   *  are the ids of a stored row too. */
  ghost predicate Unambiguous(db: Db) {
    && (forall m, i :: m in db.channelMembers && m.memberType == Agent && 0 <= i < |Joined(m.memberId, m.channelId)| ==>
         var text := Joined(m.memberId, m.channelId);
         text[i] == ':' ==> IsAgentRow(db, text[..i], text[i + 1..]))
    && (forall c, i :: c in db.channels && 0 <= i < |Joined(c, db.channels[c].serverId)| ==>
         var text := Joined(c, db.channels[c].serverId);
         text[i] == ':' ==> IsChannelOf(db, text[..i], text[i + 1..]))
  }

  // No stored id of either kind of row holds a colon.
  ghost predicate PlainIds(db: Db) {
    && (forall m :: m in db.channelMembers && m.memberType == Agent ==> ':' !in m.memberId && ':' !in m.channelId)
    && (forall c :: c in db.channels ==> ':' !in c && ':' !in db.channels[c].serverId)
  }

  ghost predicate Sound(cache: Cache, db: Db, s: Subject) {
    forall q :: Key(q) in cache ==> cache[Key(q)] == Answer(db, s, q)
  }

  lemma OneCut(first: Id, second: Id, i: nat)
    requires ':' !in first && ':' !in second && i < |Joined(first, second)| && Joined(first, second)[i] == ':'
    ensures Joined(first, second)[..i] == first && Joined(first, second)[i + 1..] == second
  {
    assert forall k :: 0 <= k < |first| ==> first[k] != ':';
    assert forall k :: 0 <= k < |second| ==> second[k] != ':';
  }

  lemma PlainIdsAreUnambiguous(db: Db)
    requires PlainIds(db)
    ensures Unambiguous(db)
  {
    forall m, i | m in db.channelMembers && m.memberType == Agent && 0 <= i < |Joined(m.memberId, m.channelId)|
                  && Joined(m.memberId, m.channelId)[i] == ':'
      ensures var text := Joined(m.memberId, m.channelId);
        IsAgentRow(db, text[..i], text[i + 1..])
    {
      OneCut(m.memberId, m.channelId, i);
      assert m == ChannelMember(m.channelId, m.memberId, Agent);
    }
    forall c, i | c in db.channels && 0 <= i < |Joined(c, db.channels[c].serverId)|
                  && Joined(c, db.channels[c].serverId)[i] == ':'
      ensures var text := Joined(c, db.channels[c].serverId);
        IsChannelOf(db, text[..i], text[i + 1..])
    {
      OneCut(c, db.channels[c].serverId, i);
    }
  }

  // Texts split at their first colon in one way.
  lemma {:induction false} FirstColonSplits(a: string, x: string, b: string, y: string)
    requires a + ":" + x == b + ":" + y && ':' !in a && ':' !in b
    ensures a == b && x == y
  {
    var l, r := a + ":" + x, b + ":" + y;
    assert l[|a|] == ':' && r[|b|] == ':';
    forall i | 0 <= i < |b| ensures b[i] != ':' && l[i] == b[i] { assert b[i] in b; }
    forall i | 0 <= i < |a| ensures a[i] != ':' && r[i] == a[i] { assert a[i] in a; }
    assert a == l[..|a|] && b == r[..|b|];
    assert x == l[|a| + 1..] && y == r[|b| + 1..];
  }

  /** Two checks share a cache key exactly if they are the same check, or are of one of the two
   *  kinds that name two ids and the ids read the same once joined. */
  lemma SameKeyExactlyWhen(q: Check, r: Check)
    ensures Key(q) == Key(r) <==>
      || q == r
      || (q.AgentIsChannelMember? && r.AgentIsChannelMember?
          && Joined(q.agentId, q.channelId) == Joined(r.agentId, r.channelId))
      || (q.ChannelInServer? && r.ChannelInServer?
          && Joined(q.channelId, q.serverId) == Joined(r.channelId, r.serverId))
  {
    if Key(q) == Key(r) { FirstColonSplits(Tag(q), Rest(q), Tag(r), Rest(r)); }
  }

  lemma CutAt(a: Id, x: Id, b: Id, y: Id)
    requires Joined(a, x) == Joined(b, y)
    ensures |b| < |Joined(a, x)| && Joined(a, x)[|b|] == ':'
    ensures Joined(a, x)[..|b|] == b && Joined(a, x)[|b| + 1..] == y
  {
  }

  lemma AnswerCarriesOver(db: Db, s: Subject, q: Check, r: Check)
    requires Unambiguous(db) && Key(q) == Key(r) && Answer(db, s, q)
    ensures Answer(db, s, r)
  {
    SameKeyExactlyWhen(q, r);
    if q != r {
      match q
      case AgentIsChannelMember(a, x) =>
        CutAt(a, x, r.agentId, r.channelId);
        assert ChannelMember(x, a, Agent) in db.channelMembers;
      case ChannelInServer(c, x) =>
        CutAt(c, x, r.channelId, r.serverId);
    }
  }

  /** Checks that share a key have the same answer, whatever ids are asked for. */
  lemma SameKeySameAnswer(db: Db, s: Subject, q: Check, r: Check)
    requires Unambiguous(db) && Key(q) == Key(r)
    ensures Answer(db, s, q) <==> Answer(db, s, r)
  {
    if Answer(db, s, q) { AnswerCarriesOver(db, s, q, r); }
    if Answer(db, s, r) { AnswerCarriesOver(db, s, r, q); }
  }

  lemma MemoIsSound(cache: Cache, db: Db, s: Subject, q: Check)
    requires Unambiguous(db) && Sound(cache, db, s)
    ensures var (after, answer) := Memo(cache, db, s, q);
      Sound(after, db, s) && answer == Answer(db, s, q)
  {
    var after := Memo(cache, db, s, q).0;
    forall r | Key(r) in after ensures after[Key(r)] == Answer(db, s, r) {
      if Key(r) == Key(q) { SameKeySameAnswer(db, s, q, r); }
    }
  }

  function AskAll(cache: Cache, db: Db, s: Subject, qs: seq<Check>): (Cache, seq<bool>)
    decreases |qs|
  {
    if qs == [] then (cache, [])
    else
      var (before, answers) := AskAll(cache, db, s, qs[..|qs| - 1]);
      var (after, answer) := Memo(before, db, s, qs[|qs| - 1]);
      (after, answers + [answer])
  }

  ghost predicate AllRight(db: Db, s: Subject, qs: seq<Check>, answers: seq<bool>) {
    |answers| == |qs| && forall i :: 0 <= i < |qs| ==> answers[i] == Answer(db, s, qs[i])
  }

  lemma AllRightSnoc(db: Db, s: Subject, qs: seq<Check>, answers: seq<bool>, answer: bool)
    requires qs != [] && AllRight(db, s, qs[..|qs| - 1], answers) && answer == Answer(db, s, qs[|qs| - 1])
    ensures AllRight(db, s, qs, answers + [answer])
  {
  }

  // Over any sequence of checks, cached answers are the uncached ones.
  lemma {:induction false} CachedAnswersAreRight(db: Db, s: Subject, qs: seq<Check>)
    requires Unambiguous(db)
    ensures Sound(AskAll(map[], db, s, qs).0, db, s)
    ensures AllRight(db, s, qs, AskAll(map[], db, s, qs).1)
    decreases |qs|
  {
    if qs != [] {
      var front, last := qs[..|qs| - 1], qs[|qs| - 1];
      CachedAnswersAreRight(db, s, front);
      var (cache, answers) := AskAll(map[], db, s, front);
      MemoIsSound(cache, db, s, last);
      AllRightSnoc(db, s, qs, answers, Memo(cache, db, s, last).1);
    }
  }

  // The answer to one check is given to another one with the same key.
  lemma SecondIsConfused(db: Db, s: Subject, q: Check, r: Check)
    requires Key(q) == Key(r) && Answer(db, s, q) && !Answer(db, s, r)
    ensures !AllRight(db, s, [q, r], AskAll(map[], db, s, [q, r]).1)
  {
    assert [q, r][..1] == [q] && [q][..0] == [];
    assert AskAll(map[], db, s, []) == (map[], []);
    assert AskAll(map[], db, s, [q]) == (map[Key(q) := true], [] + [true]);
    assert AskAll(map[], db, s, [q, r]).1 == [true, true];
    assert [q, r][1] == r;
  }

  // The stored row `(a, x)` can be cut into `(b, y)`, which is not stored.
  lemma CutIsConfused(db: Db, s: Subject) returns (qs: seq<Check>)
    requires !Unambiguous(db)
    ensures !AllRight(db, s, qs, AskAll(map[], db, s, qs).1)
  {
    var q, r;
    if m, i :| m in db.channelMembers && m.memberType == Agent && 0 <= i < |Joined(m.memberId, m.channelId)|
               && Joined(m.memberId, m.channelId)[i] == ':'
               && !IsAgentRow(db, Joined(m.memberId, m.channelId)[..i], Joined(m.memberId, m.channelId)[i + 1..])
    {
      var text := Joined(m.memberId, m.channelId);
      q, r := AgentIsChannelMember(m.memberId, m.channelId), AgentIsChannelMember(text[..i], text[i + 1..]);
      assert m == ChannelMember(m.channelId, m.memberId, Agent);
      assert text == Joined(text[..i], text[i + 1..]);
    } else {
      var c, i :| c in db.channels && 0 <= i < |Joined(c, db.channels[c].serverId)|
                  && Joined(c, db.channels[c].serverId)[i] == ':'
                  && !IsChannelOf(db, Joined(c, db.channels[c].serverId)[..i],
                                  Joined(c, db.channels[c].serverId)[i + 1..]);
      var text := Joined(c, db.channels[c].serverId);
      q, r := ChannelInServer(c, db.channels[c].serverId), ChannelInServer(text[..i], text[i + 1..]);
      assert text == Joined(text[..i], text[i + 1..]);
    }
    SameKeyExactlyWhen(q, r);
    SecondIsConfused(db, s, q, r);
    qs := [q, r];
  }

  /** Cached answers are the uncached ones over every sequence of checks, with any ids, exactly
   *  when the stored ids are unambiguous. */
  lemma CachedAnswersAreRightExactlyWhen(db: Db, s: Subject)
    ensures (forall qs :: AllRight(db, s, qs, AskAll(map[], db, s, qs).1)) <==> Unambiguous(db)
  {
    if Unambiguous(db) {
      forall qs ensures AllRight(db, s, qs, AskAll(map[], db, s, qs).1) { CachedAnswersAreRight(db, s, qs); }
    } else {
      var qs := CutIsConfused(db, s);
    }
  }

  // A stored agent id with a colon lets one check answer for another.
  lemma ColonsConfuseTheCache(db: Db, s: Subject)
    requires ChannelMember("c", "a:b", Agent) in db.channelMembers
    requires ChannelMember("b:c", "a", Agent) !in db.channelMembers
    ensures var q := AgentIsChannelMember("a", "b:c");
      Memo(Memo(map[], db, s, AgentIsChannelMember("a:b", "c")).0, db, s, q).1 != Answer(db, s, q)
  {
    assert "a:b" + ":" + "c" == "a" + ":" + "b:c";
  }

  // -------------------------------------------------------------- the set query

  predicate Listed(db: Db, s: Subject, includeArchived: bool, id: Id) {
    && id in db.channels
    && (!s.User? && s.serverId != "" ==> db.channels[id].serverId == s.serverId)
    && (includeArchived || !db.channels[id].archived)
  }

  predicate ListedByBridge(db: Db, s: Subject, id: Id)
    requires s.Bridge?
  {
    exists m :: m in db.channelMembers && m.channelId == id && IsBridgeRow(m, s)
  }

  // What listVisibleChannelIds returns with no type or server option.
  predicate Visible(db: Db, s: Subject, includeArchived: bool, id: Id) {
    Listed(db, s, includeArchived, id) &&
    if s.Bridge? then ListedByBridge(db, s, id)
    else || Answer(db, s, UserIsChannelMember(id))
         || Answer(db, s, UserHasAgentInChannel(id))
         || PublicAndServerMember(db, s, id)
  }

  method AddAll(ids: set<Id>, rows: set<Id>) returns (sum: set<Id>)
    ensures sum == ids + rows
  {
    sum := ids;
    var rest := rows;
    while rest != {}
      invariant rest <= rows && sum == ids + (rows - rest)
      decreases rest
    {
      var id :| id in rest;
      sum := sum + {id};
      rest := rest - {id};
    }
  }

  // The four queries, each a join with `channels` under the same filters.
  function BridgeRows(db: Db, s: Subject, includeArchived: bool): set<Id>
    requires s.Bridge?
  {
    set m | m in db.channelMembers && IsBridgeRow(m, s) && Listed(db, s, includeArchived, m.channelId) :: m.channelId
  }

  function HumanRows(db: Db, s: Subject, includeArchived: bool): set<Id> {
    set m | m in db.channelMembers && m.memberId == s.userId && m.memberType == Human
            && Listed(db, s, includeArchived, m.channelId) :: m.channelId
  }

  function OwnedAgentRows(db: Db, s: Subject, includeArchived: bool): set<Id> {
    set m | m in db.channelMembers && OwnsAgentIn(db, s.userId, m)
            && Listed(db, s, includeArchived, m.channelId) :: m.channelId
  }

  function PublicRows(db: Db, s: Subject, includeArchived: bool): set<Id> {
    set c, m | c in db.channels && m in db.serverMembers && db.channels[c].kind == Public
               && IsServerRow(m, db.channels[c].serverId, s.userId) && Listed(db, s, includeArchived, c) :: c
  }

  lemma RowsAreAnswers(db: Db, s: Subject, includeArchived: bool, id: Id)
    ensures id in HumanRows(db, s, includeArchived) <==>
              Listed(db, s, includeArchived, id) && Answer(db, s, UserIsChannelMember(id))
    ensures id in OwnedAgentRows(db, s, includeArchived) <==>
              Listed(db, s, includeArchived, id) && Answer(db, s, UserHasAgentInChannel(id))
    ensures id in PublicRows(db, s, includeArchived) <==>
              Listed(db, s, includeArchived, id) && PublicAndServerMember(db, s, id)
  {
    if Answer(db, s, UserIsChannelMember(id)) {
      assert ChannelMember(id, s.userId, Human) in db.channelMembers;
    }
  }

  method ListVisibleChannelIds(db: Db, s: Subject, includeArchived: bool) returns (ids: set<Id>)
    ensures forall id :: id in ids <==> Visible(db, s, includeArchived, id)
    ensures Consistent(db) && WellFormed(s) ==>
              forall id :: id in ids <==>
                MayRead(db, s, id) && id in db.channels && (includeArchived || !db.channels[id].archived)
  {
    if Consistent(db) && WellFormed(s) { VisibleByRows(db, s, includeArchived); }
    ids := {};
    if s.Bridge? {
      if |s.agentIds| == 0 { return; }
      ids := AddAll(ids, BridgeRows(db, s, includeArchived));
      return;
    }
    ids := AddAll(ids, HumanRows(db, s, includeArchived));
    ids := AddAll(ids, OwnedAgentRows(db, s, includeArchived));
    ids := AddAll(ids, PublicRows(db, s, includeArchived));
    forall id ensures id in ids <==> Visible(db, s, includeArchived, id) {
      RowsAreAnswers(db, s, includeArchived, id);
    }
  }

  // Subjects for which the set query and the policy scope alike.
  predicate WellFormed(s: Subject) {
    match s
    case User(_) => true
    case Machine(_, serverId) => serverId != ""
    case Bridge(_, serverId, agentIds) => agentIds == [] || (serverId != "" && "" !in agentIds)
  }

  ghost predicate Agrees(db: Db, s: Subject) {
    forall id :: Visible(db, s, true, id) <==> CanRead(db, s, id)
  }

  lemma WellFormedAgrees(db: Db, s: Subject)
    requires Consistent(db) && WellFormed(s)
    ensures Agrees(db, s)
  {
    forall id ensures Visible(db, s, true, id) <==> CanRead(db, s, id) {
      if Answer(db, s, UserIsChannelMember(id)) {
        assert ChannelMember(id, s.userId, Human) in db.channelMembers;
      }
      if s.Bridge? && ListedByBridge(db, s, id) {
        var m :| m in db.channelMembers && m.channelId == id && IsBridgeRow(m, s);
        assert s.agentIds != [];
      }
    }
  }

  lemma VisibleByRows(db: Db, s: Subject, includeArchived: bool)
    requires Consistent(db) && WellFormed(s)
    ensures forall id :: Visible(db, s, includeArchived, id) <==>
              MayRead(db, s, id) && id in db.channels && (includeArchived || !db.channels[id].archived)
  {
    WellFormedAgrees(db, s);
    forall id
      ensures Visible(db, s, includeArchived, id) <==>
                MayRead(db, s, id) && id in db.channels && (includeArchived || !db.channels[id].archived)
    {
      ReadExactlyByRows(db, s, id);
      assert Visible(db, s, true, id) <==> CanRead(db, s, id);
    }
  }

  // A database in which an ill-formed subject is shown a channel it may not read.
  function Witness(s: Subject): Db {
    var agentId := if s.Bridge? && s.agentIds != [] then (if "" in s.agentIds then "" else s.agentIds[0]) else "";
    var serverId := if s.Bridge? && s.serverId != "" then s.serverId else "server";
    Db(map[serverId := "owner"], {}, map["channel" := Channel(serverId, Private, false)],
       {ChannelMember("channel", s.userId, Human), ChannelMember("channel", agentId, Agent)}, map[])
  }

  lemma IllFormedDisagrees(s: Subject)
    requires !WellFormed(s)
    ensures Consistent(Witness(s)) && !Agrees(Witness(s), s)
  {
    var db := Witness(s);
    assert ChannelMember("channel", s.userId, Human) in db.channelMembers;
    if s.Bridge? {
      var agentId := if "" in s.agentIds then "" else s.agentIds[0];
      assert ChannelMember("channel", agentId, Agent) in db.channelMembers;
      assert ListedByBridge(db, s, "channel");
    }
    assert Visible(db, s, true, "channel") && !CanRead(db, s, "channel");
  }

  /** The set query returns exactly the channels the policy accepts, on every consistent
   *  database, for exactly the subjects that name their server and no empty agent id. */
  lemma SetQueryIsThePolicyExactlyWhen(s: Subject)
    ensures (forall db :: Consistent(db) ==> Agrees(db, s)) <==> WellFormed(s)
  {
    if WellFormed(s) {
      forall db | Consistent(db) ensures Agrees(db, s) { WellFormedAgrees(db, s); }
    } else {
      IllFormedDisagrees(s);
    }
  }

  // By default the query leaves out archived channels and nothing else.
  lemma DefaultLeavesOutArchived(db: Db, s: Subject, id: Id)
    requires Consistent(db) && WellFormed(s)
    ensures Visible(db, s, false, id) <==> CanRead(db, s, id) && !db.channels[id].archived
  {
    WellFormedAgrees(db, s);
    assert Visible(db, s, true, id) <==> CanRead(db, s, id);
  }

  // ------------------------------------------------------ through the cache, for real

  class AuthCtx {
    const db: Db
    const subject: Subject
    var cache: Cache

    ghost predicate Valid()
      reads this
    {
      Unambiguous(db) && Sound(cache, db, subject)
    }

    constructor (db: Db, subject: Subject)
      requires Unambiguous(db)
      ensures Valid() && this.db == db && this.subject == subject
    {
      this.db, this.subject, cache := db, subject, map[];
    }

    method Ask(q: Check) returns (answer: bool)
      requires Valid()
      modifies this`cache
      ensures Valid() && answer == Answer(db, subject, q)
    {
      MemoIsSound(cache, db, subject, q);
      var key := Key(q);
      if key in cache {
        return cache[key];
      }
      answer := Answer(db, subject, q);
      cache := cache[key := answer];
    }

    method AskScope(id: Id) returns (inScope: bool)
      requires Valid()
      modifies this`cache
      ensures Valid() && inScope == InScope(db, subject, id)
    {
      if subject.User? {
        return true;
      }
      inScope := Ask(ChannelInServer(id, subject.serverId));
    }

    method AskRead(id: Id) returns (ok: bool)
      requires Valid()
      modifies this`cache
      ensures Valid() && ok == CanRead(db, subject, id) == MayRead(db, subject, id)
    {
      ReadExactlyByRows(db, subject, id);
      var inScope := AskScope(id);
      if !inScope { return false; }
      if subject.Bridge? {
        ok := Ask(BridgeHasAgentInChannel(id));
        return;
      }
      ok := Ask(UserIsChannelMember(id));
      if ok { return; }
      ok := Ask(UserHasAgentInChannel(id));
      if ok { return; }
      var isPublic := Ask(ChannelIsPublic(id));
      if !isPublic { return false; }
      ok := Ask(UserIsServerMember(db.channels[id].serverId));
    }

    method AskManage(id: Id) returns (ok: bool)
      requires Valid()
      modifies this`cache
      ensures Valid() && ok == CanManage(db, subject, id) == MayManage(db, subject, id)
    {
      ManageExactlyByRows(db, subject, id);
      var inScope := AskScope(id);
      if !inScope { return false; }
      if subject.Bridge? {
        ok := Ask(BridgeHasAgentInChannel(id));
        return;
      }
      if !subject.User? { return false; }
      ok := Ask(UserIsChannelMember(id));
      if ok { return; }
      ok := Ask(UserHasAgentInChannel(id));
    }

    /** Filtering the visible channels loses nothing: the result is every unarchived
     *  channel that `policy.tasks.canManage` accepts. */
    method ListManageableChannelIds() returns (manageable: set<Id>)
      requires Valid() && Consistent(db) && WellFormed(subject)
      modifies this`cache
      ensures Valid()
      ensures forall id :: id in manageable <==>
                MayManage(db, subject, id) && id in db.channels && !db.channels[id].archived
    {
      var visible := ListVisibleChannelIds(db, subject, false);
      forall id ensures id in visible <==> CanRead(db, subject, id) && !db.channels[id].archived {
        DefaultLeavesOutArchived(db, subject, id);
      }
      manageable := {};
      var rest := visible;
      while rest != {}
        invariant Valid() && rest <= visible
        invariant forall id :: id in manageable <==> id in visible && id !in rest && CanManage(db, subject, id)
        decreases rest
      {
        var id :| id in rest;
        var ok := AskManage(id);
        if ok { manageable := manageable + {id}; }
        rest := rest - {id};
      }
    }
  }
}
