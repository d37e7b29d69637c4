/** Who passes messages on, over every run of `BridgeFleet`: one bridge of each workspace, and
 * each message once, exactly when the gateway's rounds are clean. */
module BridgeFleetSafety {
  import opened Wrappers
  import opened Leader
  import opened BridgeFleet

  // ------------------------------------------------------------------ along a run

  // Every event of the run finds its state as `p` says.
  ghost predicate AllSteps(events: seq<Event>, p: (Fleet, Event) -> bool)
    decreases |events|
  {
    events == [] ||
      (AllSteps(events[..|events| - 1], p) && p(Run(Init, events[..|events| - 1]), events[|events| - 1]))
  }

  // Every state of the run, from the first to the last, is as `p` says.
  ghost predicate AllStates(events: seq<Event>, p: Fleet -> bool)
    decreases |events|
  {
    p(Run(Init, events)) && (events == [] || AllStates(events[..|events| - 1], p))
  }

  // ------------------------------------------------------------------ one leader

  ghost predicate OneLeader(f: Fleet)
    requires |f.sids| == |f.bridges|
  {
    forall i: nat, j: nat :: SameServer(f, i, j) ==> !(WillDispatch(f.bridges[i]) && WillDispatch(f.bridges[j]))
  }

  /** The round tells a bridge that it leads while another one of the workspace, which the
   *  round does not reach, still believes that it does. */
  ghost predicate LeadsBeside(f: Fleet, s: Scan)
    requires |f.sids| == |f.bridges|
  {
    exists i: nat, j: nat :: SameServer(f, i, j) && Leads(f, s, i) && !Told(f, s, j) && WillDispatch(f.bridges[j])
  }

  lemma PairAfterSend(f: Fleet, r: nat, i: nat, j: nat)
    requires Inv(f) && r < |f.scans| && SameServer(f, i, j)
    ensures var t, s := SendStep(f, r), f.scans[r];
      (WillDispatch(t.bridges[i]) && WillDispatch(t.bridges[j])) <==>
        || (Leads(f, s, i) && !Told(f, s, j) && WillDispatch(f.bridges[j]))
        || (Leads(f, s, j) && !Told(f, s, i) && WillDispatch(f.bridges[i]))
        || (!Told(f, s, i) && !Told(f, s, j) && WillDispatch(f.bridges[i]) && WillDispatch(f.bridges[j]))
  {
    SendRoles(f, r, i);
    SendRoles(f, r, j);
    OneLeads(f, r, i, j);
  }

  /** From a state with one leader, a round keeps it so exactly when it does not elect beside a
   *  bridge it does not reach. */
  lemma SendKeepsOneLeaderExactlyWhen(f: Fleet, r: nat)
    requires Inv(f) && r < |f.scans| && OneLeader(f)
    ensures |SendStep(f, r).sids| == |SendStep(f, r).bridges|
    ensures OneLeader(SendStep(f, r)) <==> !LeadsBeside(f, f.scans[r])
  {
    var t := SendStep(f, r);
    forall i: nat, j: nat | SameServer(f, i, j)
      ensures (WillDispatch(t.bridges[i]) && WillDispatch(t.bridges[j])) <==>
        || (Leads(f, f.scans[r], i) && !Told(f, f.scans[r], j) && WillDispatch(f.bridges[j]))
        || (Leads(f, f.scans[r], j) && !Told(f, f.scans[r], i) && WillDispatch(f.bridges[i]))
    {
      PairAfterSend(f, r, i, j);
    }
    assert forall i: nat, j: nat :: SameServer(t, i, j) <==> SameServer(f, i, j);
  }

  /** A round that reaches every bridge that believes it leads leaves one leader in each
   *  workspace, whatever there was before: the one it elects. */
  lemma RoundLeavesOneDispatcher(f: Fleet, r: nat)
    requires Inv(f) && r < |f.scans|
    requires forall i :: 0 <= i < |f.bridges| && WillDispatch(f.bridges[i]) ==> Told(f, f.scans[r], i)
    ensures var t := SendStep(f, r);
      && |t.sids| == |t.bridges| == |f.bridges| && OneLeader(t)
      && forall i :: 0 <= i < |t.bridges| ==> (WillDispatch(t.bridges[i]) <==> Leads(f, f.scans[r], i))
  {
    var t := SendStep(f, r);
    forall i | 0 <= i < |t.bridges|
      ensures WillDispatch(t.bridges[i]) <==> Leads(f, f.scans[r], i)
    {
      SendRoles(f, r, i);
    }
    forall i: nat, j: nat | SameServer(t, i, j)
      ensures !(WillDispatch(t.bridges[i]) && WillDispatch(t.bridges[j]))
    {
      assert SameServer(f, i, j);
      OneLeads(f, r, i, j);
    }
  }

  // Nobody new leads.
  ghost predicate FewerLead(f: Fleet, t: Fleet) {
    && f.sids <= t.sids && |f.bridges| <= |t.bridges|
    && (forall i :: 0 <= i < |t.bridges| && WillDispatch(t.bridges[i]) ==>
          i < |f.bridges| && WillDispatch(f.bridges[i]))
  }

  lemma FewerLeadKeepsOneLeader(f: Fleet, t: Fleet)
    requires |f.sids| == |f.bridges| && |t.sids| == |t.bridges| && FewerLead(f, t) && OneLeader(f)
    ensures OneLeader(t)
  {
    forall i: nat, j: nat | SameServer(t, i, j)
      ensures !(WillDispatch(t.bridges[i]) && WillDispatch(t.bridges[j]))
    {
      if i < |f.bridges| && j < |f.bridges| { assert SameServer(f, i, j); }
    }
  }

  predicate Sends(f: Fleet, e: Event) {
    e.RoundSends? && e.r < |f.scans| && f.scans[e.r].todo == [] && !f.scans[e.r].sent
  }

  lemma OthersLeadNoMore(f: Fleet, e: Event)
    requires Inv(f) && !Sends(f, e)
    ensures FewerLead(f, Step(f, e))
  {
  }

  lemma StepKeepsOneLeaderExactlyWhen(f: Fleet, e: Event)
    requires Inv(f)
    ensures HasOneLeader(f) ==> (HasOneLeader(Step(f, e)) <==> NotBeside(f, e))
  {
    StepKeeps(f, e);
    if HasOneLeader(f) {
      if Sends(f, e) { SendKeepsOneLeaderExactlyWhen(f, e.r); }
      else { OthersLeadNoMore(f, e); FewerLeadKeepsOneLeader(f, Step(f, e)); }
    }
  }

  // The pre-round guards, for an event of any kind.
  ghost predicate NotBeside(f: Fleet, e: Event) {
    Sends(f, e) && |f.sids| == |f.bridges| ==> !LeadsBeside(f, f.scans[e.r])
  }

  ghost predicate NeverBeside(events: seq<Event>) { AllSteps(events, NotBeside) }

  ghost predicate HasOneLeader(f: Fleet) { |f.sids| == |f.bridges| && OneLeader(f) }

  ghost predicate AlwaysOneLeader(events: seq<Event>) { AllStates(events, HasOneLeader) }

  /** Over every run, each workspace has at most one bridge that passes messages on, all the
   *  time, exactly when no round elects beside a bridge that it does not reach and that
   *  still believes it leads. */
  lemma {:induction false} OneLeaderExactlyWhenNeverBeside(events: seq<Event>)
    ensures AlwaysOneLeader(events) <==> NeverBeside(events)
    decreases |events|
  {
    if events != [] {
      var front := events[..|events| - 1];
      OneLeaderExactlyWhenNeverBeside(front);
      RunKeeps(Init, front);
      assert AlwaysOneLeader(front) ==> HasOneLeader(Run(Init, front));
      StepKeepsOneLeaderExactlyWhen(Run(Init, front), events[|events| - 1]);
    }
  }

  // ------------------------------------------------------------------ once

  predicate Shares(a: seq<Msg>, b: seq<Msg>) { exists m :: m in a && m in b }

  // All bridges of a workspace together have passed each message on at most once.
  ghost predicate Once(f: Fleet)
    requires |f.sids| == |f.bridges|
  {
    && (forall i :: 0 <= i < |f.bridges| ==> Distinct(f.bridges[i].dispatched))
    && (forall i: nat, j: nat :: SameServer(f, i, j) ==> !Shares(f.bridges[i].dispatched, f.bridges[j].dispatched))
  }

  /** A bridge that knows no role is about to be told that it leads while its buffer holds a
   *  message that another bridge of its workspace has already passed on. */
  ghost predicate Overlaps(f: Fleet, s: Scan)
    requires |f.sids| == |f.bridges|
  {
    exists i: nat, j: nat :: SameServer(f, i, j) && TakesOver(f, s, i)
                             && Shares(f.bridges[i].pending, f.bridges[j].dispatched)
  }

  // Two bridges of a workspace that both believe they lead are about to hear a message.
  ghost predicate TwoHear(f: Fleet, to: set<nat>)
    requires |f.sids| == |f.bridges|
  {
    exists i: nat, j: nat :: SameServer(f, i, j) && i in to && j in to
                             && WillDispatch(f.bridges[i]) && WillDispatch(f.bridges[j])
  }

  lemma {:induction false} PartOf(a: seq<Msg>, b: seq<Msg>)
    requires Subsequence(a, b) && Distinct(b)
    ensures Distinct(a) && forall m :: m in a ==> m in b
    decreases |b|
  {
    if a != [] {
      var front, last := b[..|b| - 1], b[|b| - 1];
      assert b == front + [last];
      if a[|a| - 1] == last && Subsequence(a[..|a| - 1], front) {
        PartOf(a[..|a| - 1], front);
        assert a == a[..|a| - 1] + [a[|a| - 1]];
        assert last !in front;
      } else {
        PartOf(a, front);
      }
    }
  }

  // Dispatched and buffered messages are distinct and have been spread.
  lemma HeldAreSpread(b: Bridge, spread: set<Msg>)
    requires BridgeFits(b, spread)
    ensures Distinct(b.dispatched)
    ensures forall m :: m in b.dispatched || m in b.pending ==> m in spread
  {
    var held := b.dispatched + b.pending;
    PartOf(held, b.received);
    assert forall m :: m in b.dispatched || m in b.pending ==> m in held;
    assert forall x :: 0 <= x < |b.dispatched| ==> held[x] == b.dispatched[x];
  }

  lemma AllDistinct(f: Fleet)
    requires Inv(f)
    ensures forall i :: 0 <= i < |f.bridges| ==> Distinct(f.bridges[i].dispatched)
  {
    forall i | 0 <= i < |f.bridges| ensures Distinct(f.bridges[i].dispatched) { HeldAreSpread(f.bridges[i], f.spread); }
  }

  lemma SharesOfConcat(a: seq<Msg>, b: seq<Msg>, c: seq<Msg>)
    ensures Shares(a + b, c) <==> Shares(a, c) || Shares(b, c)
    ensures Shares(c, a) <==> Shares(a, c)
  {
    assert forall m :: m in a + b <==> m in a || m in b;
  }

  lemma SendShares(f: Fleet, r: nat, i: nat, j: nat)
    requires Inv(f) && r < |f.scans| && SameServer(f, i, j)
    ensures var t, s := SendStep(f, r), f.scans[r];
      Shares(t.bridges[i].dispatched, t.bridges[j].dispatched) <==>
        || Shares(f.bridges[i].dispatched, f.bridges[j].dispatched)
        || (TakesOver(f, s, i) && Shares(f.bridges[i].pending, f.bridges[j].dispatched))
        || (TakesOver(f, s, j) && Shares(f.bridges[j].pending, f.bridges[i].dispatched))
  {
    SendRoles(f, r, i);
    SendRoles(f, r, j);
    OneLeads(f, r, i, j);
    var a, b := f.bridges[i], f.bridges[j];
    SharesOfConcat(a.dispatched, a.pending, b.dispatched);
    SharesOfConcat(b.dispatched, b.pending, a.dispatched);
    SharesOfConcat(b.dispatched + b.pending, [], a.dispatched);
    assert a.dispatched + [] == a.dispatched && b.dispatched + [] == b.dispatched;
  }

  lemma SendKeepsOnceExactlyWhen(f: Fleet, r: nat)
    requires Inv(f) && r < |f.scans|
    ensures |SendStep(f, r).sids| == |SendStep(f, r).bridges|
    ensures Once(SendStep(f, r)) <==> Once(f) && !Overlaps(f, f.scans[r])
  {
    var t := SendStep(f, r);
    SendKeeps(f, r);
    AllDistinct(f);
    AllDistinct(t);
    forall i: nat, j: nat | SameServer(f, i, j)
      ensures Shares(t.bridges[i].dispatched, t.bridges[j].dispatched) <==>
        || Shares(f.bridges[i].dispatched, f.bridges[j].dispatched)
        || (TakesOver(f, f.scans[r], i) && Shares(f.bridges[i].pending, f.bridges[j].dispatched))
        || (TakesOver(f, f.scans[r], j) && Shares(f.bridges[j].pending, f.bridges[i].dispatched))
    {
      SendShares(f, r, i, j);
    }
    assert forall i: nat, j: nat :: SameServer(t, i, j) <==> SameServer(f, i, j);
  }

  lemma SpreadDispatches(f: Fleet, m: Msg, to: set<nat>, i: nat)
    requires i < |f.bridges|
    ensures var b := f.bridges[i];
      SpreadStep(f, m, to).bridges[i].dispatched
      == if i in to && WillDispatch(b) then b.dispatched + [m] else b.dispatched
  {
  }

  // A new message is shared exactly by two bridges that both pass it on.
  lemma SpreadShares(f: Fleet, m: Msg, to: set<nat>, i: nat, j: nat)
    requires Inv(f) && m !in f.spread && SameServer(f, i, j)
    ensures var t := SpreadStep(f, m, to);
      Shares(t.bridges[i].dispatched, t.bridges[j].dispatched) <==>
        || Shares(f.bridges[i].dispatched, f.bridges[j].dispatched)
        || (i in to && j in to && WillDispatch(f.bridges[i]) && WillDispatch(f.bridges[j]))
  {
    HeldAreSpread(f.bridges[i], f.spread);
    HeldAreSpread(f.bridges[j], f.spread);
    NewOnes(f.bridges[i].dispatched, f.bridges[j].dispatched, m);
    SpreadDispatches(f, m, to, i);
    SpreadDispatches(f, m, to, j);
  }

  lemma NewOnes(a: seq<Msg>, b: seq<Msg>, m: Msg)
    requires m !in a && m !in b
    ensures Shares(a + [m], b + [m])
    ensures Shares(a + [m], b) <==> Shares(a, b)
    ensures Shares(a, b + [m]) <==> Shares(a, b)
  {
    assert m in a + [m] && m in b + [m];
    assert forall x :: x in a + [m] <==> x in a || x == m;
    assert forall x :: x in b + [m] <==> x in b || x == m;
  }

  lemma SpreadKeepsOnceExactlyWhen(f: Fleet, m: Msg, to: set<nat>)
    requires Inv(f) && m !in f.spread
    ensures Once(SpreadStep(f, m, to)) <==> Once(f) && !TwoHear(f, to)
  {
    var t := SpreadStep(f, m, to);
    SpreadKeeps(f, m, to);
    AllDistinct(f);
    AllDistinct(t);
    forall i: nat, j: nat | SameServer(f, i, j)
      ensures Shares(t.bridges[i].dispatched, t.bridges[j].dispatched) <==>
        || Shares(f.bridges[i].dispatched, f.bridges[j].dispatched)
        || (i in to && j in to && WillDispatch(f.bridges[i]) && WillDispatch(f.bridges[j]))
    {
      SpreadShares(f, m, to, i, j);
    }
    assert forall i: nat, j: nat :: SameServer(t, i, j) <==> SameServer(f, i, j);
  }

  // Nobody passes anything on; there may be a new bridge, which has not passed on anything.
  ghost predicate SameDispatched(f: Fleet, t: Fleet) {
    && f.sids <= t.sids && |f.bridges| <= |t.bridges|
    && (forall i :: 0 <= i < |f.bridges| ==> t.bridges[i].dispatched == f.bridges[i].dispatched)
    && (forall i :: |f.bridges| <= i < |t.bridges| ==> t.bridges[i].dispatched == [])
  }

  lemma OthersDispatchNothing(f: Fleet, e: Event)
    requires Inv(f) && !Sends(f, e) && !(e.Spread? && e.m !in f.spread)
    ensures SameDispatched(f, Step(f, e))
  {
  }

  lemma SameDispatchedKeepsOnce(f: Fleet, t: Fleet)
    requires Inv(f) && Inv(t) && SameDispatched(f, t)
    ensures Once(t) <==> Once(f)
  {
    AllDistinct(f);
    AllDistinct(t);
    assert forall i: nat, j: nat :: SameServer(f, i, j) ==> SameServer(t, i, j);
    assert forall i: nat, j: nat :: SameServer(t, i, j) && i < |f.sids| && j < |f.sids| ==> SameServer(f, i, j);
  }

  ghost predicate NoOverlap(f: Fleet, e: Event) {
    Sends(f, e) && |f.sids| == |f.bridges| ==> !Overlaps(f, f.scans[e.r])
  }

  ghost predicate OneHears(f: Fleet, e: Event) {
    e.Spread? && e.m !in f.spread && |f.sids| == |f.bridges| ==> !TwoHear(f, e.to)
  }

  lemma StepKeepsOnceExactlyWhen(f: Fleet, e: Event)
    requires Inv(f)
    ensures |Step(f, e).sids| == |Step(f, e).bridges|
    ensures Once(Step(f, e)) <==> Once(f) && NoOverlap(f, e) && OneHears(f, e)
  {
    StepKeeps(f, e);
    if Sends(f, e) { SendKeepsOnceExactlyWhen(f, e.r); }
    else if e.Spread? && e.m !in f.spread { SpreadKeepsOnceExactlyWhen(f, e.m, e.to); }
    else {
      OthersDispatchNothing(f, e);
      SameDispatchedKeepsOnce(f, Step(f, e));
    }
  }

  ghost predicate NeverOverlaps(events: seq<Event>) { AllSteps(events, NoOverlap) }

  ghost predicate AlwaysOneHears(events: seq<Event>) { AllSteps(events, OneHears) }

  /** Over every run, the bridges of each workspace together pass every message on at most
   *  once exactly when no round makes leader a bridge that still buffers a message another
   *  one has passed on, and no message is heard by two bridges that both believe they lead. */
  lemma {:induction false} DispatchedOnceExactlyWhenNoOverlap(events: seq<Event>)
    ensures var f := Run(Init, events);
      && |f.sids| == |f.bridges|
      && (Once(f) <==> NeverOverlaps(events) && AlwaysOneHears(events))
    decreases |events|
  {
    RunKeeps(Init, events);
    if events != [] {
      var front, last := events[..|events| - 1], events[|events| - 1];
      DispatchedOnceExactlyWhenNoOverlap(front);
      RunKeeps(Init, front);
      StepKeepsOnceExactlyWhen(Run(Init, front), last);
    }
  }

  // ------------------------------------------------------------------ both together

  lemma {:induction false} NewMessage(spread: set<Msg>) returns (m: Msg)
    ensures forall x :: x in spread ==> x < m
    decreases |spread|
  {
    if spread == {} {
      m := 0;
    } else {
      var x :| x in spread;
      var n := NewMessage(spread - {x});
      m := if x < n then n else x + 1;
      assert forall y :: y in spread ==> y == x || y in spread - {x};
    }
  }

  // Whatever is sent now is passed on at most once.
  ghost predicate OnceWhateverIsSent(f: Fleet)
    requires |f.sids| == |f.bridges|
  {
    Once(f) && forall m, to :: m !in f.spread ==> Once(SpreadStep(f, m, to))
  }

  lemma OneLeaderIsNeeded(f: Fleet)
    requires Inv(f) && Once(f)
    ensures OnceWhateverIsSent(f) <==> OneLeader(f)
  {
    forall m, to | m !in f.spread
      ensures Once(SpreadStep(f, m, to)) <==> !TwoHear(f, to)
    {
      SpreadKeepsOnceExactlyWhen(f, m, to);
    }
    if !OneLeader(f) {
      var i: nat, j: nat :|
        SameServer(f, i, j) && WillDispatch(f.bridges[i]) && WillDispatch(f.bridges[j]);
      var m := NewMessage(f.spread);
      assert m !in f.spread && TwoHear(f, {i, j});
      assert !Once(SpreadStep(f, m, {i, j}));
    }
  }

  // At every point of the run, and with any message sent there.
  ghost predicate OnceThroughout(events: seq<Event>) { AllStates(events, OnceNow) }

  ghost predicate OnceNow(f: Fleet) { |f.sids| == |f.bridges| && OnceWhateverIsSent(f) }

  lemma OnceNowMeans(events: seq<Event>)
    ensures var f := Run(Init, events);
      && |f.sids| == |f.bridges|
      && (OnceNow(f) <==> Once(f) && OneLeader(f))
  {
    RunKeeps(Init, events);
    if Once(Run(Init, events)) { OneLeaderIsNeeded(Run(Init, events)); }
  }

  /** Over every run: at each point, whatever message is sent there to whichever bridges, none
   *  is passed on twice, exactly when no round elects beside a bridge that it does not reach
   *  and that still believes it leads, and none makes leader a bridge that still buffers a
   *  message another one has passed on. */
  lemma {:induction false} OnceThroughoutExactlyWhenRoundsAreClean(events: seq<Event>)
    ensures OnceThroughout(events) <==> NeverBeside(events) && NeverOverlaps(events)
    decreases |events|
  {
    OnceNowMeans(events);
    if events != [] {
      var front, last := events[..|events| - 1], events[|events| - 1];
      OnceThroughoutExactlyWhenRoundsAreClean(front);
      OnceNowMeans(front);
      assert OnceThroughout(front) ==> OnceNow(Run(Init, front));
      CleanStep(front, last);
    }
  }

  // From a state in which all is well, the next one is so exactly if the step is clean.
  lemma CleanStep(events: seq<Event>, e: Event)
    requires |Run(Init, events).sids| == |Run(Init, events).bridges|
    ensures var f := Run(Init, events); var t := Step(f, e);
      && |t.sids| == |t.bridges|
      && (Once(f) && OneLeader(f) ==> (Once(t) && OneLeader(t) <==> NotBeside(f, e) && NoOverlap(f, e)))
  {
    var f := Run(Init, events);
    RunKeeps(Init, events);
    StepKeepsOnceExactlyWhen(f, e);
    StepKeepsOneLeaderExactlyWhen(f, e);
    assert OneLeader(f) ==> OneHears(f, e);
  }
}
