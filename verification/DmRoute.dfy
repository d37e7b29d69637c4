/** The direct-message handler over the channels table, with nothing else running: the
 * loops and branches whose pieces `DmRace` interleaves. */
module DmRoute {
  import opened DmRace

  class ChannelsTable {
    var rows: Table

    constructor (initial: Table)
      ensures rows == initial
    {
      rows := initial;
    }

    // The pair lookup: every match, best first.
    method FindPair() returns (found: seq<nat>)
      ensures IsListing(rows, found)
    {
      found := [];
      var rest := rows;
      while rest != map[]
        invariant rest.Keys <= rows.Keys && forall id :: id in rest ==> rest[id] == rows[id]
        invariant forall id :: id in rows <==> id in rest || id in found
        invariant forall i, j :: 0 <= i < j < |found| ==>
                    found[i] in rows && found[j] in rows && Before(rows, found[i], found[j])
        invariant forall i, id :: 0 <= i < |found| && id in rest ==> found[i] in rows && Before(rows, found[i], id)
        decreases rest.Keys
      {
        assert rest.Keys != {};
        ghost var x :| x in rest;
        ghost var witnessed := KeeperExists(rest, x);
        var k :| k in rest && IsKeeper(rest, k);
        KeeperComesFirst(rest, k);
        found := found + [k];
        rest := rest - {k};
      }
    }

    // Deletes every row but the first and returns it.
    method PruneLosers(found: seq<nat>) returns (keeper: nat)
      requires found != []
      modifies this
      ensures keeper == found[0]
      ensures rows == old(rows) - (set id | id in found[1..])
    {
      keeper := found[0];
      var losers := found[1..];
      for i := 0 to |losers|
        invariant rows == old(rows) - (set id | id in losers[..i])
      {
        assert losers[..i + 1] == losers[..i] + [losers[i]];
        rows := rows - {losers[i]};
      }
      assert losers[..|losers|] == losers;
    }

    /** One request on its own: it answers with the pair's best channel and leaves only
     *  that one, creating it when there was none. */
    method OpenDm(freshId: nat, now: int) returns (channel: nat, created: bool)
      requires freshId !in rows
      modifies this
      ensures created <==> old(rows) == map[]
      ensures if created then channel == freshId && rows == map[freshId := now]
              else IsKeeper(old(rows), channel) && rows == map[channel := old(rows)[channel]]
    {
      var before := FindPair();
      if before != [] {
        assert before[0] in before;
        OnlyHeadIsLeft(rows, before);
        channel := PruneLosers(before);
        return channel, false;
      }
      assert rows.Keys == {};
      rows := rows[freshId := now];
      var after := FindPair();
      OnlyHeadIsLeft(rows, after);
      assert freshId in after;
      channel := PruneLosers(after);
      created := channel == freshId;
    }
  }

  lemma KeeperComesFirst(t: Table, k: nat)
    requires IsKeeper(t, k)
    ensures forall id :: id in t && id != k ==> Before(t, k, id)
  {
    forall id | id in t && id != k ensures Before(t, k, id) {
      assert !Before(t, id, k);
    }
  }

  lemma HeadIsKeeper(t: Table, found: seq<nat>)
    requires IsListing(t, found) && t != map[]
    ensures found != [] && found[0] in t && IsKeeper(t, found[0])
  {
    assert t.Keys != {};
    var x :| x in t;
    assert x in found;
    forall y | y in t ensures !Before(t, y, found[0]) {
      var i :| 0 <= i < |found| && found[i] == y;
    }
  }

  lemma OnlyHeadIsLeft(t: Table, found: seq<nat>)
    requires IsListing(t, found) && t != map[]
    ensures found != [] && found[0] in t && IsKeeper(t, found[0])
    ensures t - (set id | id in found[1..]) == map[found[0] := t[found[0]]]
  {
    HeadIsKeeper(t, found);
    HeadIsNotInTail(t, found);
    assert found == [found[0]] + found[1..];
  }

  lemma HeadIsNotInTail(t: Table, found: seq<nat>)
    requires IsListing(t, found) && found != []
    ensures found[0] !in found[1..]
  {
    assert forall i :: 0 <= i < |found| - 1 ==> found[1..][i] == found[i + 1] && Before(t, found[0], found[i + 1]);
  }
}
