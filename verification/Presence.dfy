/** Who is online in one workspace: the user gateways' tab counts, the workspace's
 * connection counts, and what every subscribed tab is shown.
 *
 * Gateways and workspaces keep their data per (user, server), so one workspace with any
 * number of users and tabs is enough.  A gateway handler is one step; a subscribe whose
 * second call fails, rolled back, is a step too.
 */
module Presence {
  import opened Wrappers

  type User(==) = string
  type TabId = nat

  datatype UserEntry = UserEntry(conns: nat, lastSeenAt: int)
  datatype Update = Update(user: User, online: bool)

  // The workspace object's memory.
  datatype Workspace = Workspace(users: map<User, UserEntry>, subscribers: set<User>)

  const PRUNE_AFTER_MS: int := 60_000

  function Conns(w: Workspace, u: User): nat {
    if u in w.users then w.users[u].conns else 0
  }

  predicate Online(w: Workspace, u: User) { Conns(w, u) > 0 }

  // noteConnection: the new memory, and the update to broadcast on a 0/positive change.
  function Note(w: Workspace, u: User, up: bool, now: int): (Workspace, Option<Update>) {
    var conns := if up then Conns(w, u) + 1 else if Conns(w, u) == 0 then 0 else Conns(w, u) - 1;
    var t := w.(users := w.users[u := UserEntry(conns, now)]);
    (t, if Online(w, u) != Online(t, u) then Some(Update(u, Online(t, u))) else None)
  }

  function Snapshot(w: Workspace): map<User, bool> {
    map u | u in w.users :: w.users[u].conns > 0
  }

  // The alarm forgets users offline for more than a minute.
  function Prune(w: Workspace, now: int): Workspace {
    w.(users := map u | u in w.users && !(w.users[u].conns == 0 && now - w.users[u].lastSeenAt > PRUNE_AFTER_MS)
                :: w.users[u])
  }

  // A browser tab; `holds` says whether it is subscribed, `view` is what it shows.
  datatype Tab = Tab(user: User, holds: bool, view: map<User, bool>)

  /** `counts` is each user's gateway count for this workspace; `log` is every update the
   *  workspace has broadcast. */
  datatype State = State(w: Workspace, tabs: map<TabId, Tab>, counts: map<User, nat>, log: seq<Update>)

  const Init := State(Workspace(map[], {}), map[], map[], [])

  datatype Event =
    | OpenTab(tab: TabId, user: User)
    | Subscribe(tab: TabId, now: int)
    | SubscribeFails(tab: TabId, now: int)
    | Unsubscribe(tab: TabId, now: int)
    | CloseTab(tab: TabId, now: int)
    | GatewayRestarts(user: User)
    | AlarmPrunes(now: int)

  // ------------------------------------------------------------------ the steps

  // A gateway forwards an update to its user's subscribed tabs.
  function Forward(w: Workspace, tabs: map<TabId, Tab>, upd: Update): map<TabId, Tab> {
    map t | t in tabs ::
      if tabs[t].holds && tabs[t].user in w.subscribers
      then tabs[t].(view := tabs[t].view[upd.user := upd.online]) else tabs[t]
  }

  function NoteStep(s: State, u: User, up: bool, now: int): State {
    var (w, upd) := Note(s.w, u, up, now);
    if upd.None? then s.(w := w)
    else s.(w := w, tabs := Forward(w, s.tabs, upd.value), log := s.log + [upd.value])
  }

  function Count(s: State, u: User): nat { if u in s.counts then s.counts[u] else 0 }

  // Register the user and give the tab the snapshot.
  function SnapshotStep(s: State, tab: TabId): State
    requires tab in s.tabs
  {
    var w := s.w.(subscribers := s.w.subscribers + {s.tabs[tab].user});
    s.(w := w, tabs := s.tabs[tab := s.tabs[tab].(holds := true, view := Snapshot(w))])
  }

  function SubscribeStep(s: State, tab: TabId, now: int): State
    requires tab in s.tabs
  {
    if s.tabs[tab].holds then SnapshotStep(s, tab)
    else
      var u := s.tabs[tab].user;
      var t := NoteStep(s, u, true, now);
      SnapshotStep(t.(counts := t.counts[u := Count(t, u) + 1]), tab)
  }

  // One tab less for its user; the last one takes the registration with it.
  function Release(s: State, tab: TabId, now: int): State
    requires tab in s.tabs
  {
    var u := s.tabs[tab].user;
    var t := NoteStep(s, u, false, now);
    var n := if u in t.counts then (if t.counts[u] == 0 then 0 else t.counts[u] - 1) else 0;
    if n == 0 then t.(counts := t.counts - {u}, w := t.w.(subscribers := t.w.subscribers - {u}))
    else t.(counts := t.counts[u := n])
  }

  function Holders(s: State, u: User): set<TabId> {
    set t | t in s.tabs && s.tabs[t].user == u && s.tabs[t].holds
  }

  // An event that is not possible in a state changes nothing.
  function Step(s: State, e: Event): State {
    match e
    case OpenTab(tab, user) => if tab in s.tabs then s else s.(tabs := s.tabs[tab := Tab(user, false, map[])])
    case Subscribe(tab, now) => if tab in s.tabs then SubscribeStep(s, tab, now) else s
    case SubscribeFails(tab, now) =>
      if tab in s.tabs && !s.tabs[tab].holds then
        var u := s.tabs[tab].user;
        NoteStep(NoteStep(s, u, true, now), u, false, now)
      else s
    case Unsubscribe(tab, now) =>
      if tab in s.tabs && s.tabs[tab].holds then
        var t := Release(s, tab, now);
        if tab in t.tabs then t.(tabs := t.tabs[tab := t.tabs[tab].(holds := false)]) else t
      else s
    case CloseTab(tab, now) =>
      if tab in s.tabs then
        var t := if s.tabs[tab].holds then Release(s, tab, now) else s;
        t.(tabs := t.tabs - {tab})
      else s
    case GatewayRestarts(user) =>
      var n := |Holders(s, user)|;
      s.(counts := if n == 0 then s.counts - {user} else s.counts[user := n])
    case AlarmPrunes(now) => s.(w := Prune(s.w, now))
  }

  function Run(events: seq<Event>): State
    decreases |events|
  {
    if events == [] then Init else Step(Run(events[..|events| - 1]), events[|events| - 1])
  }

  // ------------------------------------------------------------- the invariant

  ghost predicate UserAgrees(s: State, u: User) {
    && Count(s, u) == |Holders(s, u)| == Conns(s.w, u)
    && (u in s.counts ==> s.counts[u] > 0)
    && (u in s.w.subscribers <==> Holders(s, u) != {})
  }

  ghost predicate CountsAgree(s: State) {
    forall u: User :: UserAgrees(s, u)
  }

  ghost predicate ShowsOnline(view: map<User, bool>, w: Workspace) {
    forall u: User :: (u in view && view[u]) <==> Online(w, u)
  }

  ghost predicate ViewsAgree(s: State) {
    forall t :: t in s.tabs && s.tabs[t].holds ==> ShowsOnline(s.tabs[t].view, s.w)
  }

  // The last thing the log says of a user.
  function LastSaid(log: seq<Update>, u: User): bool
    decreases |log|
  {
    if log == [] then false
    else if log[|log| - 1].user == u then log[|log| - 1].online
    else LastSaid(log[..|log| - 1], u)
  }

  ghost predicate Alternates(log: seq<Update>) {
    forall i :: 0 <= i < |log| ==> log[i].online != LastSaid(log[..i], log[i].user)
  }

  ghost predicate LogAgrees(s: State) {
    Alternates(s.log) && forall u: User :: LastSaid(s.log, u) == Online(s.w, u)
  }

  ghost predicate Inv(s: State) { CountsAgree(s) && ViewsAgree(s) && LogAgrees(s) }

  // ---------------------------------------------------------------- the proofs

  // Every subscribed tab belongs to a registered user.
  ghost predicate Registered(s: State) {
    forall t :: t in s.tabs && s.tabs[t].holds ==> s.tabs[t].user in s.w.subscribers
  }

  lemma CountsGiveRegistered(s: State)
    requires CountsAgree(s)
    ensures Registered(s)
  {
    forall t | t in s.tabs && s.tabs[t].holds ensures s.tabs[t].user in s.w.subscribers {
      assert UserAgrees(s, s.tabs[t].user);
      assert t in Holders(s, s.tabs[t].user);
    }
  }

  // A note changes one connection count, and views and log by the same update.
  lemma NoteFrame(s: State, u: User, up: bool, now: int)
    ensures var t := NoteStep(s, u, up, now);
      && t.w == Note(s.w, u, up, now).0
      && t.counts == s.counts && t.w.subscribers == s.w.subscribers && t.tabs.Keys == s.tabs.Keys
      && (forall x :: x in s.tabs ==> t.tabs[x].user == s.tabs[x].user && t.tabs[x].holds == s.tabs[x].holds)
      && (forall x: User :: x != u ==> Conns(t.w, x) == Conns(s.w, x))
      && Conns(t.w, u) == (if up then Conns(s.w, u) + 1 else if Conns(s.w, u) == 0 then 0 else Conns(s.w, u) - 1)
      && (forall x: User :: Holders(t, x) == Holders(s, x))
  {
    var t := NoteStep(s, u, up, now);
    assert t.tabs.Keys == s.tabs.Keys;
    forall x: User ensures Holders(t, x) == Holders(s, x) {}
  }

  lemma NoteKeepsShown(s: State, u: User, up: bool, now: int)
    requires ViewsAgree(s) && Registered(s)
    ensures ViewsAgree(NoteStep(s, u, up, now)) && Registered(NoteStep(s, u, up, now))
  {
    var t := NoteStep(s, u, up, now);
    NoteFrame(s, u, up, now);
    forall x | x in t.tabs && t.tabs[x].holds ensures ShowsOnline(t.tabs[x].view, t.w) {
      assert ShowsOnline(s.tabs[x].view, s.w);
    }
  }

  lemma LogSnoc(log: seq<Update>, upd: Update)
    requires Alternates(log) && upd.online != LastSaid(log, upd.user)
    ensures Alternates(log + [upd])
    ensures forall u: User :: LastSaid(log + [upd], u) == if u == upd.user then upd.online else LastSaid(log, u)
  {
    var all := log + [upd];
    assert all[..|log|] == log;
    forall i | 0 <= i < |all| ensures all[i].online != LastSaid(all[..i], all[i].user) {
      if i < |log| { assert all[..i] == log[..i]; }
    }
  }

  lemma NoteKeepsLog(s: State, u: User, up: bool, now: int)
    requires LogAgrees(s)
    ensures LogAgrees(NoteStep(s, u, up, now))
  {
    NoteFrame(s, u, up, now);
    var upd := Note(s.w, u, up, now).1;
    if upd.Some? { LogSnoc(s.log, upd.value); }
  }

  lemma NoteKeepsViews(s: State, u: User, up: bool, now: int)
    requires ViewsAgree(s) && LogAgrees(s) && Registered(s)
    ensures var t := NoteStep(s, u, up, now); ViewsAgree(t) && LogAgrees(t) && Registered(t)
  {
    NoteKeepsShown(s, u, up, now);
    NoteKeepsLog(s, u, up, now);
  }

  lemma OpenKeeps(s: State, tab: TabId, user: User)
    requires Inv(s)
    ensures Inv(Step(s, OpenTab(tab, user)))
  {
    var t := Step(s, OpenTab(tab, user));
    forall u: User ensures UserAgrees(t, u) {
      assert UserAgrees(s, u) && Holders(t, u) == Holders(s, u);
    }
  }

  lemma SnapshotKeeps(s: State, tab: TabId)
    requires tab in s.tabs && ViewsAgree(s) && LogAgrees(s)
    ensures var t := SnapshotStep(s, tab);
      ViewsAgree(t) && LogAgrees(t) && forall u: User :: Conns(t.w, u) == Conns(s.w, u)
  {
    var t := SnapshotStep(s, tab);
    assert forall u: User :: Online(t.w, u) == Online(s.w, u);
    forall x | x in t.tabs && t.tabs[x].holds ensures ShowsOnline(t.tabs[x].view, t.w) {
      if x != tab { assert ShowsOnline(s.tabs[x].view, s.w); }
    }
  }

  lemma ResubscribeKeeps(s: State, tab: TabId)
    requires Inv(s) && tab in s.tabs && s.tabs[tab].holds
    ensures Inv(SnapshotStep(s, tab))
  {
    SnapshotKeeps(s, tab);
    var t := SnapshotStep(s, tab);
    assert tab in Holders(s, s.tabs[tab].user);
    forall u: User ensures UserAgrees(t, u) {
      assert UserAgrees(s, u) && Holders(t, u) == Holders(s, u);
    }
  }

  lemma FirstSubscribeFrame(s: State, tab: TabId, now: int)
    requires tab in s.tabs && !s.tabs[tab].holds
    ensures var u := s.tabs[tab].user; var t := SubscribeStep(s, tab, now);
      && Holders(t, u) == Holders(s, u) + {tab} && tab !in Holders(s, u)
      && Conns(t.w, u) == Conns(s.w, u) + 1 && t.counts == s.counts[u := Count(s, u) + 1]
      && t.w.subscribers == s.w.subscribers + {u}
      && (forall x: User :: x != u ==> Conns(t.w, x) == Conns(s.w, x) && Holders(t, x) == Holders(s, x))
  {
    var u, t := s.tabs[tab].user, SubscribeStep(s, tab, now);
    NoteFrame(s, u, true, now);
    var m := NoteStep(s, u, true, now);
    assert t.tabs == m.tabs[tab := t.tabs[tab]];
    assert Holders(t, u) == Holders(m, u) + {tab};
    forall x: User | x != u ensures Holders(t, x) == Holders(m, x) {}
  }

  lemma FirstSubscribeCounts(s: State, tab: TabId, now: int)
    requires CountsAgree(s) && tab in s.tabs && !s.tabs[tab].holds
    ensures CountsAgree(SubscribeStep(s, tab, now))
  {
    FirstSubscribeFrame(s, tab, now);
    forall x: User ensures UserAgrees(SubscribeStep(s, tab, now), x) {
      assert UserAgrees(s, x);
    }
  }

  lemma FirstSubscribeKeeps(s: State, tab: TabId, now: int)
    requires Inv(s) && tab in s.tabs && !s.tabs[tab].holds
    ensures Inv(SubscribeStep(s, tab, now))
  {
    CountsGiveRegistered(s);
    FirstSubscribeCounts(s, tab, now);
    var u := s.tabs[tab].user;
    NoteFrame(s, u, true, now);
    NoteKeepsViews(s, u, true, now);
    var m := NoteStep(s, u, true, now);
    SnapshotKeeps(m.(counts := m.counts[u := Count(m, u) + 1]), tab);
  }

  lemma FailedSubscribeKeeps(s: State, tab: TabId, now: int)
    requires Inv(s) && tab in s.tabs
    ensures Inv(Step(s, SubscribeFails(tab, now)))
  {
    if !s.tabs[tab].holds {
      CountsGiveRegistered(s);
      var u := s.tabs[tab].user;
      var m := NoteStep(s, u, true, now);
      var t := NoteStep(m, u, false, now);
      NoteFrame(s, u, true, now);
      NoteFrame(m, u, false, now);
      NoteKeepsViews(s, u, true, now);
      NoteKeepsViews(m, u, false, now);
      forall x: User ensures UserAgrees(t, x) {
        assert UserAgrees(s, x) && Holders(t, x) == Holders(m, x) == Holders(s, x);
      }
    }
  }

  // The tabs after `tab` is released: it is gone or no longer subscribed, the rest stay.
  ghost predicate LetGo(before: map<TabId, Tab>, after: map<TabId, Tab>, tab: TabId) {
    && after.Keys <= before.Keys && (tab in after ==> !after[tab].holds)
    && (forall x :: x in before && x != tab ==> x in after && after[x] == before[x])
  }

  lemma ReleaseFrame(s: State, tab: TabId, now: int, tabs: map<TabId, Tab>)
    requires tab in s.tabs && s.tabs[tab].holds && LetGo(Release(s, tab, now).tabs, tabs, tab)
    ensures var u := s.tabs[tab].user; var t := Release(s, tab, now).(tabs := tabs);
      && tab in Holders(s, u) && Holders(t, u) == Holders(s, u) - {tab}
      && Conns(t.w, u) == (if Conns(s.w, u) == 0 then 0 else Conns(s.w, u) - 1)
      && (forall x: User :: x != u ==> Conns(t.w, x) == Conns(s.w, x) && Holders(t, x) == Holders(s, x))
  {
    var u, t := s.tabs[tab].user, Release(s, tab, now).(tabs := tabs);
    NoteFrame(s, u, false, now);
    var m := NoteStep(s, u, false, now);
    assert Release(s, tab, now).tabs == m.tabs;
    assert Holders(t, u) == Holders(m, u) - {tab};
    forall x: User | x != u ensures Holders(t, x) == Holders(m, x) {}
  }

  lemma ReleaseCounts(s: State, tab: TabId, now: int, tabs: map<TabId, Tab>)
    requires CountsAgree(s) && tab in s.tabs && s.tabs[tab].holds
    requires LetGo(Release(s, tab, now).tabs, tabs, tab)
    ensures CountsAgree(Release(s, tab, now).(tabs := tabs))
  {
    ReleaseFrame(s, tab, now, tabs);
    NoteFrame(s, s.tabs[tab].user, false, now);
    forall x: User ensures UserAgrees(Release(s, tab, now).(tabs := tabs), x) {
      assert UserAgrees(s, x);
      assert UserAgrees(s, s.tabs[tab].user);
    }
  }

  lemma ReleaseKeeps(s: State, tab: TabId, now: int, tabs: map<TabId, Tab>)
    requires Inv(s) && tab in s.tabs && s.tabs[tab].holds
    requires LetGo(Release(s, tab, now).tabs, tabs, tab)
    ensures Inv(Release(s, tab, now).(tabs := tabs))
  {
    CountsGiveRegistered(s);
    ReleaseCounts(s, tab, now, tabs);
    var u := s.tabs[tab].user;
    NoteKeepsViews(s, u, false, now);
    var m, t := NoteStep(s, u, false, now), Release(s, tab, now).(tabs := tabs);
    assert forall x: User :: Online(t.w, x) == Online(m.w, x);
    forall x | x in t.tabs && t.tabs[x].holds ensures ShowsOnline(t.tabs[x].view, t.w) {
      assert ShowsOnline(m.tabs[x].view, m.w);
    }
  }

  lemma CloseIdleKeeps(s: State, tab: TabId)
    requires Inv(s) && tab in s.tabs && !s.tabs[tab].holds
    ensures Inv(s.(tabs := s.tabs - {tab}))
  {
    var t := s.(tabs := s.tabs - {tab});
    forall u: User ensures UserAgrees(t, u) {
      assert UserAgrees(s, u) && Holders(t, u) == Holders(s, u);
    }
  }

  lemma PruneKeeps(s: State, now: int)
    requires Inv(s)
    ensures Inv(s.(w := Prune(s.w, now)))
  {
    var t := s.(w := Prune(s.w, now));
    assert forall u: User :: Conns(t.w, u) == Conns(s.w, u);
    forall u: User ensures UserAgrees(t, u) {
      assert UserAgrees(s, u) && Holders(t, u) == Holders(s, u);
    }
    forall x | x in t.tabs && t.tabs[x].holds ensures ShowsOnline(t.tabs[x].view, t.w) {
      assert ShowsOnline(s.tabs[x].view, s.w);
    }
  }

  lemma RestartKeeps(s: State, user: User)
    requires Inv(s)
    ensures Step(s, GatewayRestarts(user)) == s
  {
    assert UserAgrees(s, user);
    assert user in s.counts ==> s.counts[user := s.counts[user]] == s.counts;
    assert user !in s.counts ==> s.counts - {user} == s.counts;
  }

  lemma StepKeeps(s: State, e: Event)
    requires Inv(s)
    ensures Inv(Step(s, e))
  {
    match e
    case OpenTab(tab, user) => OpenKeeps(s, tab, user);
    case Subscribe(tab, now) =>
      if tab in s.tabs {
        if s.tabs[tab].holds { ResubscribeKeeps(s, tab); } else { FirstSubscribeKeeps(s, tab, now); }
      }
    case SubscribeFails(tab, now) => if tab in s.tabs { FailedSubscribeKeeps(s, tab, now); }
    case Unsubscribe(tab, now) =>
      if tab in s.tabs && s.tabs[tab].holds {
        var r := Release(s, tab, now);
        ReleaseKeeps(s, tab, now, r.tabs[tab := r.tabs[tab].(holds := false)]);
      }
    case CloseTab(tab, now) =>
      if tab in s.tabs {
        if s.tabs[tab].holds { ReleaseKeeps(s, tab, now, Release(s, tab, now).tabs - {tab}); }
        else { CloseIdleKeeps(s, tab); }
      }
    case GatewayRestarts(user) => RestartKeeps(s, user);
    case AlarmPrunes(now) => PruneKeeps(s, now);
  }

  lemma {:induction false} RunKeeps(events: seq<Event>)
    ensures Inv(Run(events))
    decreases |events|
  {
    if events != [] {
      RunKeeps(events[..|events| - 1]);
      StepKeeps(Run(events[..|events| - 1]), events[|events| - 1]);
    }
  }

  // ------------------------------------------------------------------ theorems

  /** The gateway's count, the workspace's connection count and the number of subscribed
   *  tabs are one number, and a user is registered for updates iff it is positive. */
  lemma RefCountsAgree(events: seq<Event>, u: User)
    ensures var s := Run(events);
      && Count(s, u) == Conns(s.w, u) == |Holders(s, u)|
      && (u in s.w.subscribers <==> exists t :: t in Holders(s, u))
  {
    RunKeeps(events);
    var s := Run(events);
    assert UserAgrees(s, u);
    assert Holders(s, u) != {} <==> exists t :: t in Holders(s, u);
  }

  /** Every subscribed tab shows a user as online exactly when some tab of that user is
   *  subscribed; a user it does not list is offline. */
  lemma ViewsShowWhoIsThere(events: seq<Event>, tab: TabId, u: User)
    requires var s := Run(events); tab in s.tabs && s.tabs[tab].holds
    ensures var s := Run(events); var view := s.tabs[tab].view;
      (u in view && view[u]) <==> exists t :: t in s.tabs && s.tabs[t].holds && s.tabs[t].user == u
  {
    RunKeeps(events);
    var s := Run(events);
    assert ShowsOnline(s.tabs[tab].view, s.w);
    assert UserAgrees(s, u);
    if t :| t in s.tabs && s.tabs[t].holds && s.tabs[t].user == u {
      assert t in Holders(s, u);
    } else {
      assert Holders(s, u) == {};
    }
  }

  // The same, told from the events alone.
  predicate IsOpen(events: seq<Event>, tab: TabId)
    decreases |events|
  {
    events != [] &&
    match events[|events| - 1]
    case OpenTab(t, _) => t == tab || IsOpen(events[..|events| - 1], tab)
    case CloseTab(t, _) => t != tab && IsOpen(events[..|events| - 1], tab)
    case _ => IsOpen(events[..|events| - 1], tab)
  }

  predicate IsSubscribed(events: seq<Event>, tab: TabId)
    decreases |events|
  {
    events != [] &&
    var front := events[..|events| - 1];
    match events[|events| - 1]
    case Subscribe(t, _) => if t == tab then IsOpen(front, tab) else IsSubscribed(front, tab)
    case Unsubscribe(t, _) => t != tab && IsSubscribed(front, tab)
    case CloseTab(t, _) => t != tab && IsSubscribed(front, tab)
    case _ => IsSubscribed(front, tab)
  }

  // Whose tab it is, or was last.
  function Owner(events: seq<Event>, tab: TabId): User
    decreases |events|
  {
    if events == [] then ""
    else
      var front := events[..|events| - 1];
      match events[|events| - 1]
      case OpenTab(t, user) => if t == tab && !IsOpen(front, tab) then user else Owner(front, tab)
      case _ => Owner(front, tab)
  }

  lemma StepTabs(s: State, e: Event, tab: TabId)
    ensures var t := Step(s, e);
      && (tab in t.tabs <==> (tab in s.tabs && !(e.CloseTab? && e.tab == tab)) || (e.OpenTab? && e.tab == tab))
      && (tab in s.tabs && tab in t.tabs ==> t.tabs[tab].user == s.tabs[tab].user)
      && (tab !in s.tabs && tab in t.tabs ==> t.tabs[tab].user == e.user && !t.tabs[tab].holds)
      && (tab in s.tabs && tab in t.tabs ==>
            t.tabs[tab].holds == if e.Subscribe? && e.tab == tab then true
                                 else if e.Unsubscribe? && e.tab == tab then false else s.tabs[tab].holds)
  {
    match e
    case Subscribe(tab, now) => if tab in s.tabs { NoteTabs(s, s.tabs[tab].user, true, now); }
    case SubscribeFails(tab, now) =>
      if tab in s.tabs {
        NoteTabs(s, s.tabs[tab].user, true, now);
        NoteTabs(NoteStep(s, s.tabs[tab].user, true, now), s.tabs[tab].user, false, now);
      }
    case Unsubscribe(tab, now) => if tab in s.tabs { NoteTabs(s, s.tabs[tab].user, false, now); }
    case CloseTab(tab, now) => if tab in s.tabs { NoteTabs(s, s.tabs[tab].user, false, now); }
    case _ =>
  }

  lemma NoteTabs(s: State, u: User, up: bool, now: int)
    ensures var t := NoteStep(s, u, up, now);
      && t.tabs.Keys == s.tabs.Keys
      && (forall x :: x in s.tabs ==> t.tabs[x].user == s.tabs[x].user && t.tabs[x].holds == s.tabs[x].holds)
  {
    NoteFrame(s, u, up, now);
  }

  lemma {:induction false} TabsFollowTheEvents(events: seq<Event>, tab: TabId)
    ensures var s := Run(events);
      && (tab in s.tabs <==> IsOpen(events, tab))
      && (tab in s.tabs ==> s.tabs[tab].user == Owner(events, tab) && s.tabs[tab].holds == IsSubscribed(events, tab))
      && (IsSubscribed(events, tab) ==> IsOpen(events, tab))
    decreases |events|
  {
    if events != [] {
      var front := events[..|events| - 1];
      TabsFollowTheEvents(front, tab);
      StepTabs(Run(front), events[|events| - 1], tab);
    }
  }

  // A tab that is not subscribed is told nothing.
  lemma UnsubscribedTabsHearNothing(s: State, e: Event, tab: TabId)
    requires tab in s.tabs && tab in Step(s, e).tabs && !s.tabs[tab].holds && !(e.Subscribe? && e.tab == tab)
    ensures Step(s, e).tabs[tab] == s.tabs[tab]
  {
    match e
    case Subscribe(tab, now) => if tab in s.tabs { NoteTabs(s, s.tabs[tab].user, true, now); }
    case Unsubscribe(tab, now) => if tab in s.tabs { NoteTabs(s, s.tabs[tab].user, false, now); }
    case CloseTab(tab, now) => if tab in s.tabs { NoteTabs(s, s.tabs[tab].user, false, now); }
    case _ =>
  }

  /** From what the tabs asked for to what they show: a subscribed tab shows a user online
   *  exactly when a tab of that user is subscribed. */
  lemma SubscribedTabsShowWhoSubscribed(events: seq<Event>, tab: TabId, u: User)
    requires IsSubscribed(events, tab)
    ensures tab in Run(events).tabs
    ensures var view := Run(events).tabs[tab].view;
      (u in view && view[u]) <==> exists t: TabId :: IsSubscribed(events, t) && Owner(events, t) == u
  {
    var s := Run(events);
    TabsFollowTheEvents(events, tab);
    ViewsShowWhoIsThere(events, tab, u);
    if u in s.tabs[tab].view && s.tabs[tab].view[u] {
      var t :| t in s.tabs && s.tabs[t].holds && s.tabs[t].user == u;
      TabsFollowTheEvents(events, t);
      assert IsSubscribed(events, t) && Owner(events, t) == u;
    }
    if t: TabId :| IsSubscribed(events, t) && Owner(events, t) == u {
      TabsFollowTheEvents(events, t);
      assert t in s.tabs && s.tabs[t].holds && s.tabs[t].user == u;
    }
  }

  /** The alarm leaves listed, as they were, exactly the users with a subscribed tab and those
   *  seen within the last minute. */
  lemma PrunedExactlyWhenGone(events: seq<Event>, now: int, u: User)
    ensures var s := Run(events); var t := Step(s, AlarmPrunes(now));
      && (u in t.w.users <==>
            u in s.w.users && (Holders(s, u) != {} || now - s.w.users[u].lastSeenAt <= PRUNE_AFTER_MS))
      && (Holders(s, u) != {} ==> u in t.w.users)
      && (u in t.w.users ==> t.w.users[u] == s.w.users[u])
      && t == s.(w := t.w) && t.w.subscribers == s.w.subscribers
  {
    RunKeeps(events);
    assert UserAgrees(Run(events), u);
  }

  // When an event says that the user comes or goes.
  predicate Touches(s: State, e: Event, u: User) {
    match e
    case Subscribe(tab, _) => tab in s.tabs && s.tabs[tab].user == u && !s.tabs[tab].holds
    case SubscribeFails(tab, _) => tab in s.tabs && s.tabs[tab].user == u && !s.tabs[tab].holds
    case Unsubscribe(tab, _) => tab in s.tabs && s.tabs[tab].user == u && s.tabs[tab].holds
    case CloseTab(tab, _) => tab in s.tabs && s.tabs[tab].user == u && s.tabs[tab].holds
    case _ => false
  }

  /** A user is last seen when a tab of theirs was last subscribed or given up. */
  lemma LastSeenIsTheLastTouch(s: State, e: Event, u: User)
    ensures var t := Step(s, e);
      && (Touches(s, e, u) ==> u in t.w.users && t.w.users[u].lastSeenAt == e.now)
      && (!Touches(s, e, u) && u in t.w.users ==> u in s.w.users && t.w.users[u] == s.w.users[u])
  {
  }

  /** Updates about one user alternate, online first, whatever is pruned in between. */
  lemma UpdatesAlternate(events: seq<Event>, i: nat)
    requires i < |Run(events).log|
    ensures var log := Run(events).log; log[i].online == !LastSaid(log[..i], log[i].user)
  {
    RunKeeps(events);
  }
}
