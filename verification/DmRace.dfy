/** Opening a direct-message channel: find, insert, find again, delete the losers.
 *
 * Any number of requests for the same pair run at once against a table that has no
 * transaction spanning these queries.  Only the order of channel ids matters, so ids
 * are numbers; the table holds the creation time of each of the pair's channels.
 */
module DmRace {

  type Table = map<nat, int>

  // ORDER BY created_at ASC, id ASC.
  predicate Before(t: Table, a: nat, b: nat)
    requires a in t && b in t
  {
    t[a] < t[b] || (t[a] == t[b] && a < b)
  }

  predicate IsKeeper(t: Table, k: nat) {
    k in t && forall x :: x in t ==> !Before(t, x, k)
  }

  // What the ordered lookup returns.
  ghost predicate IsListing(t: Table, found: seq<nat>) {
    && (forall id :: id in t <==> id in found)
    && (forall i, j :: 0 <= i < j < |found| ==> Before(t, found[i], found[j]))
  }

  /** Where a request is.  `seen` remembers every channel inserted before the lookup that
   *  decided the answer. */
  datatype Caller =
    | Looking
    | Creating(id: nat, createdAt: int)
    | Inserted(id: nat)
    | Pruning(keeper: nat, losers: seq<nat>, seen: set<nat>)
    | Done(result: nat, seen: set<nat>)
    | Failed

  /** `ever` is every channel the pair has had.  `orphaned` says that a request died, or
   *  none has come yet, and no new one has looked since; `ranked`, that every insert so
   *  far came after all others in rank. */
  datatype State = State(table: Table, ever: Table, callers: map<nat, Caller>, orphaned: bool, ranked: bool)

  // Duplicates may be left over from requests that died.
  function Init(table: Table): State { State(table, table, map[], true, true) }

  datatype Event =
    | Arrive(c: nat)
    | Find(c: nat, found: seq<nat>, freshId: nat, now: int)
    | Insert(c: nat)
    | InsertFails(c: nat)
    | Refind(c: nat, found: seq<nat>)
    | Delete(c: nat)
    | Finish(c: nat)
    | Die(c: nat)

  function Set(s: State, c: nat, phase: Caller): State {
    s.(callers := s.callers[c := phase])
  }

  ghost predicate Enabled(s: State, e: Event) {
    match e
    case Arrive(c) => c !in s.callers
    case Find(c, found, freshId, now) =>
      c in s.callers && s.callers[c].Looking? && IsListing(s.table, found)
    case Insert(c) => c in s.callers && s.callers[c].Creating? && s.callers[c].id !in s.ever
    case InsertFails(c) => c in s.callers && s.callers[c].Creating?
    case Refind(c, found) => c in s.callers && s.callers[c].Inserted? && IsListing(s.table, found)
    case Delete(c) => c in s.callers && s.callers[c].Pruning? && s.callers[c].losers != []
    case Finish(c) => c in s.callers && s.callers[c].Pruning? && s.callers[c].losers == []
    case Die(c) => c in s.callers && !s.callers[c].Done?
  }

  function Prune(s: State, found: seq<nat>): Caller
    requires found != []
  {
    Pruning(found[0], found[1..], s.ever.Keys)
  }

  // An event that is not possible in a state changes nothing.
  ghost function Step(s: State, e: Event): State {
    if !Enabled(s, e) then s
    else
      match e
      case Arrive(c) => Set(s, c, Looking).(orphaned := false)
      case Find(c, found, freshId, now) =>
        Set(s, c, if found == [] then Creating(freshId, now) else Prune(s, found))
      case Insert(c) =>
        var id, at := s.callers[c].id, s.callers[c].createdAt;
        var ever := s.ever[id := at];
        Set(s, c, Inserted(id)).(table := s.table[id := at], ever := ever,
                                 ranked := s.ranked && forall x :: x in s.ever ==> Before(ever, x, id))
      case InsertFails(c) => Set(s, c, Failed)
      case Refind(c, found) =>
        Set(s, c, if found == [] then Done(s.callers[c].id, s.ever.Keys) else Prune(s, found))
      case Delete(c) =>
        var p := s.callers[c];
        Set(s, c, p.(losers := p.losers[1..])).(table := s.table - {p.losers[0]})
      case Finish(c) => Set(s, c, Done(s.callers[c].keeper, s.callers[c].seen))
      case Die(c) => Set(s, c, Failed).(orphaned := true)
  }

  ghost function Run(table: Table, events: seq<Event>): State
    decreases |events|
  {
    if events == [] then Init(table)
    else Step(Run(table, events[..|events| - 1]), events[|events| - 1])
  }

  // ------------------------------------------------------------- the invariant

  ghost predicate Agree(s: State) {
    forall id :: id in s.table ==> id in s.ever && s.ever[id] == s.table[id]
  }

  ghost predicate KeeperStays(s: State) {
    forall k :: IsKeeper(s.ever, k) ==> k in s.table
  }

  // A decided request keeps the best channel it knew of and deletes only worse ones.
  ghost predicate GoodChoice(s: State, keeper: nat, seen: set<nat>) {
    && keeper in seen && seen <= s.ever.Keys
    && forall x :: x in seen ==> !Before(s.ever, x, keeper)
  }

  ghost predicate CallerOk(s: State, p: Caller) {
    match p
    case Pruning(keeper, losers, seen) =>
      GoodChoice(s, keeper, seen) && forall l :: l in losers ==> l in s.ever && Before(s.ever, keeper, l)
    case Done(result, seen) => GoodChoice(s, result, seen)
    case Inserted(id) => id in s.ever
    case _ => true
  }

  // A request that will still look at everything, or has `r` on its list.
  predicate WillDelete(p: Caller, r: nat) {
    p.Looking? || p.Inserted? || (p.Pruning? && r in p.losers)
  }

  // Every duplicate is somebody's to delete.
  ghost predicate DuplicatesAreOwned(s: State) {
    forall k, r :: k in s.table && r in s.table && Before(s.table, k, r) ==>
      exists c :: c in s.callers && WillDelete(s.callers[c], r)
  }

  ghost predicate RankedChoices(s: State) {
    s.ranked ==> forall c :: c in s.callers ==>
      match s.callers[c]
      case Pruning(keeper, _, _) => IsKeeper(s.ever, keeper)
      case Done(result, _) => IsKeeper(s.ever, result)
      case _ => true
  }

  ghost predicate Inv(s: State) {
    && Agree(s)
    && KeeperStays(s)
    && (forall c :: c in s.callers ==> CallerOk(s, s.callers[c]))
    && (!s.orphaned ==> DuplicatesAreOwned(s))
    && RankedChoices(s)
  }

  // ---------------------------------------------------------------- the proofs

  // Some channel ranks first, and not after a given one.
  lemma {:induction false} KeeperExists(t: Table, x: nat) returns (k: nat)
    requires x in t
    ensures IsKeeper(t, k) && !Before(t, x, k)
    decreases |t|
  {
    if y :| y in t && Before(t, y, x) {
      var rest := t - {x};
      assert |rest.Keys| < |t.Keys| by { assert rest.Keys == t.Keys - {x}; }
      k := KeeperExists(rest, y);
      assert !Before(rest, y, k);
      forall z | z in t ensures !Before(t, z, k) {
        if z != x { assert z in rest && !Before(rest, z, k); }
      }
    } else {
      k := x;
    }
  }

  // The head of a lookup is the best channel there has ever been.
  lemma ListingStartsWithKeeper(s: State, found: seq<nat>)
    requires Agree(s) && KeeperStays(s) && IsListing(s.table, found)
    ensures found == [] <==> s.ever == map[]
    ensures found != [] ==>
              && IsKeeper(s.ever, found[0])
              && forall l :: l in found[1..] ==> l in s.ever && Before(s.ever, found[0], l)
  {
    if found != [] {
      assert found[0] in found && found[0] in s.table;
      var k := KeeperExists(s.ever, found[0]);
      assert k in found;
      forall l | l in found[1..] ensures l in s.ever && Before(s.ever, found[0], l) {
        var i :| 0 <= i < |found[1..]| && found[1..][i] == l;
        assert l == found[i + 1] && Before(s.table, found[0], found[i + 1]);
        assert l in found;
      }
    } else if x :| x in s.ever {
      var k := KeeperExists(s.ever, x);
    } else {
      assert s.ever.Keys == {};
    }
  }

  lemma ArriveKeeps(s: State, c: nat)
    requires Inv(s) && Enabled(s, Arrive(c))
    ensures Inv(Step(s, Arrive(c)))
  {
    var t := Step(s, Arrive(c));
    assert t.callers[c] == Looking;
    assert forall d :: d in s.callers ==> t.callers[d] == s.callers[d];
    forall k, r | k in t.table && r in t.table && Before(t.table, k, r)
      ensures exists d :: d in t.callers && WillDelete(t.callers[d], r)
    {
      assert WillDelete(t.callers[c], r);
    }
  }

  // The caller that has just listed the table owns every duplicate in it.
  lemma PruneKeeps(s: State, c: nat, found: seq<nat>)
    requires Inv(s) && c in s.callers && IsListing(s.table, found) && found != []
    ensures Inv(Set(s, c, Prune(s, found)))
  {
    ListingStartsWithKeeper(s, found);
    var t := Set(s, c, Prune(s, found));
    assert forall d :: d in s.callers && d != c ==> t.callers[d] == s.callers[d];
    forall k, r | k in t.table && r in t.table && Before(t.table, k, r)
      ensures exists d :: d in t.callers && WillDelete(t.callers[d], r)
    {
      assert r in found;
      var i :| 0 <= i < |found| && found[i] == r;
      assert i != 0;
      assert found[1..][i - 1] == r;
      assert WillDelete(t.callers[c], r);
    }
  }

  // A caller that owned nothing moves on without touching the tables.
  lemma MoveKeeps(s: State, c: nat, phase: Caller)
    requires Inv(s) && c in s.callers
    requires s.table == map[] || forall r :: r in s.table ==> !WillDelete(s.callers[c], r)
    requires CallerOk(s, phase) && !phase.Pruning?
    requires phase.Done? && s.ranked ==> IsKeeper(s.ever, phase.result)
    ensures Inv(Set(s, c, phase))
  {
    var t := Set(s, c, phase);
    assert forall d :: d in s.callers && d != c ==> t.callers[d] == s.callers[d];
    if !s.orphaned {
      forall k, r | k in t.table && r in t.table && Before(t.table, k, r)
        ensures exists d :: d in t.callers && WillDelete(t.callers[d], r)
      {
        var d :| d in s.callers && WillDelete(s.callers[d], r);
        assert WillDelete(t.callers[d], r);
      }
    }
  }

  lemma InsertKeepsChoices(s: State, c: nat)
    requires Inv(s) && Enabled(s, Insert(c))
    ensures var t := Step(s, Insert(c));
      && Agree(t) && KeeperStays(t) && RankedChoices(t)
      && forall d :: d in t.callers ==> CallerOk(t, t.callers[d])
  {
    var t, id := Step(s, Insert(c)), s.callers[c].id;
    assert forall d :: d in s.callers && d != c ==> t.callers[d] == s.callers[d];
    assert forall x, y :: x in s.ever && y in s.ever ==> Before(t.ever, x, y) == Before(s.ever, x, y);
    forall k | IsKeeper(t.ever, k) ensures k in t.table {
      if k != id {
        forall x | x in s.ever ensures !Before(s.ever, x, k) { assert x in t.ever; }
        assert IsKeeper(s.ever, k);
      }
    }
    forall d | d in t.callers ensures CallerOk(t, t.callers[d]) {
      if d != c { assert CallerOk(s, s.callers[d]); }
    }
    if t.ranked {
      forall k | IsKeeper(s.ever, k) ensures IsKeeper(t.ever, k) {
        assert Before(t.ever, k, id);
      }
    }
  }

  lemma InsertKeepsOwners(s: State, c: nat)
    requires Inv(s) && Enabled(s, Insert(c)) && !s.orphaned
    ensures DuplicatesAreOwned(Step(s, Insert(c)))
  {
    var t, id := Step(s, Insert(c)), s.callers[c].id;
    forall k, r | k in t.table && r in t.table && Before(t.table, k, r)
      ensures exists d :: d in t.callers && WillDelete(t.callers[d], r)
    {
      if k == id || r == id {
        assert WillDelete(t.callers[c], r);
      } else {
        assert Before(s.table, k, r);
        var d :| d in s.callers && WillDelete(s.callers[d], r);
        assert WillDelete(t.callers[d], r);
      }
    }
  }

  lemma DeleteKeepsChoices(s: State, c: nat)
    requires Inv(s) && Enabled(s, Delete(c))
    ensures var t := Step(s, Delete(c));
      && Agree(t) && KeeperStays(t) && RankedChoices(t)
      && forall d :: d in t.callers ==> CallerOk(t, t.callers[d])
  {
    var t, p := Step(s, Delete(c)), s.callers[c];
    assert CallerOk(s, p);
    assert p.losers[0] in p.losers && Before(s.ever, p.keeper, p.losers[0]);
    assert CallerOk(t, t.callers[c]);
    assert forall d :: d in s.callers && d != c ==> t.callers[d] == s.callers[d];
  }

  // The row that goes is the only one its request no longer answers for.
  lemma DeleteKeepsOwners(s: State, c: nat)
    requires Inv(s) && Enabled(s, Delete(c)) && !s.orphaned
    ensures DuplicatesAreOwned(Step(s, Delete(c)))
  {
    var t, losers := Step(s, Delete(c)), s.callers[c].losers;
    assert losers == [losers[0]] + losers[1..];
    forall k, r | k in t.table && r in t.table && Before(t.table, k, r)
      ensures exists d :: d in t.callers && WillDelete(t.callers[d], r)
    {
      assert Before(s.table, k, r);
      var d :| d in s.callers && WillDelete(s.callers[d], r);
      assert WillDelete(t.callers[d], r);
    }
  }

  lemma DeleteKeeps(s: State, c: nat)
    requires Inv(s) && Enabled(s, Delete(c))
    ensures Inv(Step(s, Delete(c)))
  {
    DeleteKeepsChoices(s, c);
    if !s.orphaned { DeleteKeepsOwners(s, c); }
  }

  lemma StepKeeps(s: State, e: Event)
    requires Inv(s)
    ensures Inv(Step(s, e))
  {
    if Enabled(s, e) {
      match e
      case Arrive(c) => ArriveKeeps(s, c);
      case Find(c, found, freshId, now) =>
        if found == [] {
          assert s.table.Keys == {};
          MoveKeeps(s, c, Creating(freshId, now));
        } else {
          PruneKeeps(s, c, found);
        }
      case Insert(c) =>
        InsertKeepsChoices(s, c);
        if !s.orphaned { InsertKeepsOwners(s, c); }
      case InsertFails(c) => MoveKeeps(s, c, Failed);
      case Refind(c, found) =>
        ListingStartsWithKeeper(s, found);
        assert CallerOk(s, s.callers[c]);
        PruneKeeps(s, c, found);
      case Delete(c) => DeleteKeeps(s, c);
      case Finish(c) =>
        assert CallerOk(s, s.callers[c]);
        MoveKeeps(s, c, Done(s.callers[c].keeper, s.callers[c].seen));
      case Die(c) =>
        var t := Step(s, e);
        assert forall d :: d in s.callers && d != c ==> t.callers[d] == s.callers[d];
    }
  }

  lemma {:induction false} RunKeeps(table: Table, events: seq<Event>)
    ensures Inv(Run(table, events))
    decreases |events|
  {
    if events != [] {
      RunKeeps(table, events[..|events| - 1]);
      StepKeeps(Run(table, events[..|events| - 1]), events[|events| - 1]);
    }
  }

  // ------------------------------------------------------------------ theorems

  ghost predicate AllFinished(s: State) {
    forall c :: c in s.callers ==> s.callers[c].Done? || s.callers[c].Failed?
  }

  /** The best channel ever inserted for the pair is never deleted. */
  lemma TheKeeperIsNeverDeleted(table: Table, events: seq<Event>, k: nat)
    ensures var s := Run(table, events); IsKeeper(s.ever, k) ==> k in s.table
  {
    RunKeeps(table, events);
  }

  /** Once every request has finished, and one has come since the last that died, exactly
   *  the best channel remains, whatever duplicates there were to begin with. */
  lemma OneChannelRemains(table: Table, events: seq<Event>)
    requires var s := Run(table, events); AllFinished(s) && !s.orphaned && s.ever != map[]
    ensures var s := Run(table, events);
      exists k: nat :: IsKeeper(s.ever, k) && s.table.Keys == {k}
  {
    RunKeeps(table, events);
    var s := Run(table, events);
    assert s.ever.Keys != {};
    var x :| x in s.ever;
    var k := KeeperExists(s.ever, x);
    forall r | r in s.table ensures r == k {
      assert !Before(s.ever, r, k);
      assert r == k || Before(s.table, k, r);
    }
    assert s.table.Keys == {k};
  }

  /** A request answers with the surviving channel exactly when that channel was already
   *  there at its deciding lookup. */
  lemma AnswersAreRightExactlyWhenSeen(table: Table, events: seq<Event>, c: nat, k: nat)
    requires var s := Run(table, events);
      c in s.callers && s.callers[c].Done? && IsKeeper(s.ever, k)
    ensures var s := Run(table, events);
      s.callers[c].result == k <==> k in s.callers[c].seen
  {
    RunKeeps(table, events);
    var s := Run(table, events);
    assert CallerOk(s, s.callers[c]);
  }

  /** If channels are inserted in rank order all requests answer with the same channel. */
  lemma AllAnswersAgreeWhenRanked(table: Table, events: seq<Event>, c: nat, d: nat)
    requires var s := Run(table, events);
      s.ranked && c in s.callers && s.callers[c].Done? && d in s.callers && s.callers[d].Done?
    ensures var s := Run(table, events);
      s.callers[c].result == s.callers[d].result && s.callers[c].result in s.table
  {
    RunKeeps(table, events);
    var s := Run(table, events);
    assert IsKeeper(s.ever, s.callers[c].result) && IsKeeper(s.ever, s.callers[d].result);
  }

  lemma Advance(table: Table, events: seq<Event>, n: nat, before: State, after: State)
    requires n < |events| && Run(table, events[..n]) == before && Step(before, events[n]) == after
    ensures Run(table, events[..n + 1]) == after
  {
    assert events[..n + 1][..n] == events[..n];
  }

  // Two requests create channels; the one inserted second is the older one.
  function SwappedRun(): seq<Event> {
    [Arrive(1), Arrive(2), Find(1, [], 5, 10), Find(2, [], 3, 9), Insert(1), Refind(1, [5]),
     Finish(1), Insert(2), Refind(2, [3, 5]), Delete(2), Finish(2)]
  }

  function Callers(one: Caller, two: Caller): map<nat, Caller> { map[1 := one, 2 := two] }

  lemma BothArrive(events: seq<Event>)
    requires events == SwappedRun()
    ensures Run(map[], events[..2]) == State(map[], map[], Callers(Looking, Looking), false, true)
  {
    var s1 := Step(Init(map[]), Arrive(1));
    Advance(map[], events, 0, Init(map[]), s1);
    Advance(map[], events, 1, s1, State(map[], map[], Callers(Looking, Looking), false, true));
  }

  lemma BothFindNothing(events: seq<Event>)
    requires events == SwappedRun()
    ensures Run(map[], events[..4])
         == State(map[], map[], Callers(Creating(5, 10), Creating(3, 9)), false, true)
  {
    BothArrive(events);
    var s2 := State(map[], map[], Callers(Looking, Looking), false, true);
    var s3 := State(map[], map[], Callers(Creating(5, 10), Looking), false, true);
    Advance(map[], events, 2, s2, s3);
    Advance(map[], events, 3, s3, Step(s3, events[3]));
  }

  lemma FirstInserts(events: seq<Event>)
    requires events == SwappedRun()
    ensures Run(map[], events[..5])
         == State(map[5 := 10], map[5 := 10], Callers(Inserted(5), Creating(3, 9)), false, true)
  {
    BothFindNothing(events);
    var s4 := State(map[], map[], Callers(Creating(5, 10), Creating(3, 9)), false, true);
    Advance(map[], events, 4, s4, Step(s4, Insert(1)));
  }

  lemma FirstRefinds(events: seq<Event>)
    requires events == SwappedRun()
    ensures Run(map[], events[..6])
         == State(map[5 := 10], map[5 := 10], Callers(Pruning(5, [], {5}), Creating(3, 9)), false, true)
  {
    FirstInserts(events);
    var t: Table := map[5 := 10];
    var s5 := State(t, t, Callers(Inserted(5), Creating(3, 9)), false, true);
    assert IsListing(t, [5]) && t.Keys == {5} && [5][1..] == [];
    Advance(map[], events, 5, s5, State(t, t, Callers(Pruning(5, [], {5}), Creating(3, 9)), false, true));
  }

  lemma FirstAnswers(events: seq<Event>)
    requires events == SwappedRun()
    ensures Run(map[], events[..7])
         == State(map[5 := 10], map[5 := 10], Callers(Done(5, {5}), Creating(3, 9)), false, true)
  {
    FirstRefinds(events);
    var s6 := State(map[5 := 10], map[5 := 10], Callers(Pruning(5, [], {5}), Creating(3, 9)), false, true);
    Advance(map[], events, 6, s6, Step(s6, Finish(1)));
  }

  lemma SecondInserts(events: seq<Event>)
    requires events == SwappedRun()
    ensures Run(map[], events[..8])
         == State(map[3 := 9, 5 := 10], map[3 := 9, 5 := 10], Callers(Done(5, {5}), Inserted(3)), false, false)
  {
    FirstAnswers(events);
    var both: Table := map[3 := 9, 5 := 10];
    var s7 := State(map[5 := 10], map[5 := 10], Callers(Done(5, {5}), Creating(3, 9)), false, true);
    var s8 := State(both, both, Callers(Done(5, {5}), Inserted(3)), false, false);
    var ten: Table := map[5 := 10];
    assert ten[3 := 9] == both && !Before(both, 5, 3) && 5 in ten;
    assert s7.callers[2 := Inserted(3)] == s8.callers;
    Advance(map[], events, 7, s7, s8);
  }

  lemma SecondPrunes(events: seq<Event>)
    requires events == SwappedRun()
    ensures Run(map[], events[..9])
         == State(map[3 := 9, 5 := 10], map[3 := 9, 5 := 10],
                  Callers(Done(5, {5}), Pruning(3, [5], {3, 5})), false, false)
  {
    SecondInserts(events);
    var both: Table := map[3 := 9, 5 := 10];
    var s8 := State(both, both, Callers(Done(5, {5}), Inserted(3)), false, false);
    assert IsListing(both, [3, 5]) && both.Keys == {3, 5};
    Advance(map[], events, 8, s8, Step(s8, Refind(2, [3, 5])));
  }

  /** Requests need not agree: here request 1 answers with a channel that request 2 deletes. */
  lemma AnswersCanDisagree(events: seq<Event>)
    requires events == SwappedRun()
    ensures Run(map[], events)
         == State(map[3 := 9], map[3 := 9, 5 := 10], Callers(Done(5, {5}), Done(3, {3, 5})), false, false)
  {
    SecondPrunes(events);
    var both: Table := map[3 := 9, 5 := 10];
    var s9 := State(both, both, Callers(Done(5, {5}), Pruning(3, [5], {3, 5})), false, false);
    var s10 := State(map[3 := 9], both, Callers(Done(5, {5}), Pruning(3, [], {3, 5})), false, false);
    assert both - {5} == map[3 := 9] && [5][1..] == [];
    assert s9.callers[2 := Pruning(3, [], {3, 5})] == s10.callers;
    Advance(map[], events, 9, s9, s10);
    Advance(map[], events, 10, s10, Step(s10, Finish(2)));
    assert events[..11] == events;
  }
}
