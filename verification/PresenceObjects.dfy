/** The two presence objects: the workspace's, whose methods take the steps of
 * `Presence`, and a user's gateway, whose counts cover all workspaces at once. */
module PresenceObjects {
  import opened Wrappers
  import opened Presence

  class WorkspacePresence {
    var users: map<User, UserEntry>
    var subscribers: set<User>

    ghost function View(): Workspace
      reads this
    {
      Workspace(users, subscribers)
    }

    constructor ()
      ensures View() == Workspace(map[], {})
    {
      users, subscribers := map[], {};
    }

    // The update to broadcast, on a change between no connection and some.
    method NoteConnection(u: User, up: bool, now: int) returns (upd: Option<Update>)
      modifies this
      ensures (View(), upd) == Note(old(View()), u, up, now)
    {
      var cur := if u in users then users[u] else UserEntry(0, 0);
      var wasOnline := cur.conns > 0;
      var conns := if up then cur.conns + 1 else if cur.conns == 0 then 0 else cur.conns - 1;
      users := users[u := UserEntry(conns, now)];
      var isOnline := conns > 0;
      upd := if wasOnline != isOnline then Some(Update(u, isOnline)) else None;
    }

    method Subscribe(u: User) returns (snapshot: map<User, bool>)
      modifies this`subscribers
      ensures View() == old(View()).(subscribers := old(subscribers) + {u})
      ensures snapshot == Snapshot(View())
    {
      subscribers := subscribers + {u};
      snapshot := map[];
      var rest := users.Keys;
      while rest != {}
        invariant rest <= users.Keys
        invariant snapshot == map x | x in users && x !in rest :: users[x].conns > 0
        decreases rest
      {
        var x :| x in rest;
        snapshot := snapshot[x := users[x].conns > 0];
        rest := rest - {x};
      }
    }

    method Unsubscribe(u: User)
      modifies this`subscribers
      ensures View() == old(View()).(subscribers := old(subscribers) - {u})
    {
      subscribers := subscribers - {u};
    }

    method Alarm(now: int)
      modifies this`users
      ensures View() == Prune(old(View()), now)
    {
      var rest := users.Keys;
      ghost var before := users;
      while rest != {}
        invariant rest <= before.Keys
        invariant users == map x | x in before && (x in rest ||
                             !(before[x].conns == 0 && now - before[x].lastSeenAt > PRUNE_AFTER_MS)) :: before[x]
        decreases rest
      {
        var x :| x in rest;
        if users[x].conns == 0 && now - users[x].lastSeenAt > PRUNE_AFTER_MS {
          users := users - {x};
        }
        rest := rest - {x};
      }
    }
  }

  type ServerId(==) = string
  type Sockets = map<TabId, seq<ServerId>>

  // The sockets whose attachment lists a workspace.
  function Listing(sockets: Sockets, sid: ServerId): set<TabId> {
    set t | t in sockets && sid in sockets[t]
  }

  ghost predicate Distinct(subs: seq<ServerId>) {
    forall i, j :: 0 <= i < j < |subs| ==> subs[i] != subs[j]
  }

  // A count for every workspace some socket lists, and for no other.
  ghost predicate Counts(counts: map<ServerId, nat>, sockets: Sockets) {
    forall sid: ServerId :: CountIs(counts, sid, |Listing(sockets, sid)|)
  }

  ghost predicate CountIs(counts: map<ServerId, nat>, sid: ServerId, n: nat) {
    if n == 0 then sid !in counts else sid in counts && counts[sid] == n
  }

  class UserGateway {
    var sockets: Sockets
    var presenceSubCounts: map<ServerId, nat>

    ghost predicate Valid()
      reads this
    {
      Counts(presenceSubCounts, sockets) && forall t :: t in sockets ==> Distinct(sockets[t])
    }

    /** A restarted gateway recounts its subscriptions from the socket attachments. */
    constructor Rehydrate(attached: Sockets)
      requires forall t :: t in attached ==> Distinct(attached[t])
      ensures Valid() && sockets == attached
    {
      sockets := attached;
      presenceSubCounts := map[];
      new;
      var rest, seen := attached.Keys, map[];
      while rest != {}
        invariant sockets == attached && rest <= attached.Keys
        invariant seen == map t | t in attached && t !in rest :: attached[t]
        invariant Counts(presenceSubCounts, seen)
        decreases rest
      {
        var t :| t in rest;
        var subs := attached[t];
        CountSocket(t, subs, seen);
        seen := seen[t := subs];
        rest := rest - {t};
      }
      assert seen == attached;
    }

    method CountSocket(t: TabId, subs: seq<ServerId>, ghost seen: Sockets)
      requires t !in seen && Distinct(subs) && Counts(presenceSubCounts, seen)
      modifies this`presenceSubCounts
      ensures Counts(presenceSubCounts, seen[t := subs])
    {
      EmptyKeepsCounts(presenceSubCounts, seen, t);
      assert subs[..0] == [];
      for i := 0 to |subs|
        invariant Counts(presenceSubCounts, seen[t := subs[..i]])
      {
        var sid := subs[i];
        var n := if sid in presenceSubCounts then presenceSubCounts[sid] else 0;
        ghost var before := presenceSubCounts;
        presenceSubCounts := presenceSubCounts[sid := n + 1];
        OneMoreListed(seen, t, subs, i);
        ghost var after := seen[t := subs[..i + 1]];
        forall other: ServerId ensures CountIs(presenceSubCounts, other, |Listing(after, other)|) {
          assert CountIs(before, other, |Listing(seen[t := subs[..i]], other)|);
        }
      }
      assert subs[..|subs|] == subs;
    }

    // The tail of a first subscribe, both calls to the workspace done.
    method Subscribed(tab: TabId, sid: ServerId)
      requires Valid() && tab in sockets && sid !in sockets[tab]
      modifies this
      ensures Valid() && sockets == old(sockets)[tab := old(sockets)[tab] + [sid]]
    {
      var n := if sid in presenceSubCounts then presenceSubCounts[sid] else 0;
      presenceSubCounts := presenceSubCounts[sid := n + 1];
      sockets := sockets[tab := sockets[tab] + [sid]];
      forall other: ServerId ensures CountIs(presenceSubCounts, other, |Listing(sockets, other)|) {
        assert CountIs(old(presenceSubCounts), other, |Listing(old(sockets), other)|);
        SubscribeLists(old(sockets), tab, sid, other);
      }
      assert Distinct(sockets[tab]);
    }

    // One socket less for a workspace, a missing count being one; `last` says the user is to
    // be unregistered there.
    method Decrement(sid: ServerId) returns (last: bool)
      modifies this`presenceSubCounts
      ensures last <==> sid !in old(presenceSubCounts) || old(presenceSubCounts)[sid] <= 1
      ensures presenceSubCounts == if last then old(presenceSubCounts) - {sid}
                                   else old(presenceSubCounts)[sid := old(presenceSubCounts)[sid] - 1]
    {
      var count := if sid in presenceSubCounts then presenceSubCounts[sid] else 1;
      var n := if count == 0 then 0 else count - 1;
      presenceSubCounts := presenceSubCounts[sid := n];
      last := n == 0;
      if last {
        presenceSubCounts := presenceSubCounts - {sid};
      }
    }

    /** Closing a socket gives up each of its subscriptions; `gone` are the workspaces for
     *  which it was the user's last one. */
    method CloseSocket(tab: TabId) returns (gone: set<ServerId>)
      requires Valid() && tab in sockets
      modifies this
      ensures Valid() && sockets == old(sockets) - {tab}
      ensures forall sid :: sid in gone <==> sid in old(sockets)[tab] && Listing(sockets, sid) == {}
    {
      var subs := sockets[tab];
      gone := {};
      assert subs[0..] == subs && sockets[tab := subs] == sockets;
      for i := 0 to |subs|
        invariant sockets == old(sockets)
        invariant Counts(presenceSubCounts, sockets[tab := subs[i..]])
        invariant forall sid :: sid in gone <==> sid in subs[..i] && Listing(sockets - {tab}, sid) == {}
      {
        var sid := subs[i];
        assert subs[i..] == [sid] + subs[i + 1..];
        OneLessListed(sockets, tab, subs, i);
        assert CountIs(presenceSubCounts, sid, |Listing(sockets[tab := subs[i..]], sid)|);
        ghost var before := presenceSubCounts;
        var last := Decrement(sid);
        if last { gone := gone + {sid}; }
        ghost var after := sockets[tab := subs[i + 1..]];
        forall other: ServerId ensures CountIs(presenceSubCounts, other, |Listing(after, other)|) {
          assert CountIs(before, other, |Listing(sockets[tab := subs[i..]], other)|);
        }
        assert subs[..i + 1] == subs[..i] + [sid];
      }
      assert subs[|subs|..] == [] && subs[..|subs|] == subs;
      sockets := sockets - {tab};
      forall other: ServerId ensures CountIs(presenceSubCounts, other, |Listing(sockets, other)|) {
        assert CountIs(presenceSubCounts, other, |Listing(old(sockets)[tab := []], other)|);
        assert Listing(sockets, other) == Listing(old(sockets)[tab := []], other);
      }
    }
  }

  lemma EmptyKeepsCounts(counts: map<ServerId, nat>, sockets: Sockets, t: TabId)
    requires t !in sockets && Counts(counts, sockets)
    ensures Counts(counts, sockets[t := []])
  {
    var more := sockets[t := []];
    forall sid: ServerId ensures CountIs(counts, sid, |Listing(more, sid)|) {
      assert CountIs(counts, sid, |Listing(sockets, sid)|);
      assert Listing(more, sid) == Listing(sockets, sid);
    }
  }

  lemma OneMoreListed(sockets: Sockets, t: TabId, subs: seq<ServerId>, i: nat)
    requires i < |subs| && Distinct(subs)
    ensures var before := sockets[t := subs[..i]]; var after := sockets[t := subs[..i + 1]];
      && Listing(after, subs[i]) == Listing(before, subs[i]) + {t} && t !in Listing(before, subs[i])
      && forall sid: ServerId :: sid != subs[i] ==> Listing(after, sid) == Listing(before, sid)
  {
    assert subs[..i + 1] == subs[..i] + [subs[i]];
  }

  lemma SubscribeLists(sockets: Sockets, t: TabId, sid: ServerId, other: ServerId)
    requires t in sockets && sid !in sockets[t]
    ensures var after := sockets[t := sockets[t] + [sid]];
      && Listing(after, other) == Listing(sockets, other) + (if other == sid then {t} else {})
      && t !in Listing(sockets, sid)
  {
  }

  lemma OneLessListed(sockets: Sockets, t: TabId, subs: seq<ServerId>, i: nat)
    requires i < |subs| && Distinct(subs)
    ensures var before := sockets[t := subs[i..]]; var after := sockets[t := subs[i + 1..]];
      && Listing(before, subs[i]) == Listing(after, subs[i]) + {t} && t !in Listing(after, subs[i])
      && Listing(after, subs[i]) == Listing(sockets - {t}, subs[i])
      && forall sid: ServerId :: sid != subs[i] ==> Listing(after, sid) == Listing(before, sid)
  {
    assert subs[i..] == [subs[i]] + subs[i + 1..];
  }
}
