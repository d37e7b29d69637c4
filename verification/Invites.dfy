/** Accepting an invite: many callers race for the slots of one invite.
 *
 *  The handler is cut at its awaits: read the invite, read the membership, claim a slot by a
 *  conditional update, insert the member, and give the slot back if the insert failed.  Any
 *  of the three writes may fail, or commit and be reported as failed.
 */
module Invites {
  import opened Wrappers

  type User = nat

  // An invite row.  `maxUses` 0 means no limit; `email`, if any, pins it to one address.
  datatype Invite = Invite(uses: int, maxUses: nat, revoked: bool, expiresAt: Option<int>, email: Option<string>)

  datatype Outcome =
    | IsRevoked | IsExpired | EmailMismatch | AlreadyMember | Exhausted | Unavailable
    | ClaimFailed(slotTaken: bool)
    | Admitted
    | InsertFailed(slotBack: bool, joined: bool)

  // `joined` says that the user has become a member although the insert was reported failed.
  datatype Phase =
    | Arrived | RowRead(seen: Invite) | Cleared | Claimed | RollingBack(joined: bool) | Done(outcome: Outcome)

  datatype Write = Works | Fails | CommitsUnreported

  datatype Caller = Caller(user: User, email: string, phase: Phase)

  // `claims` (the times of the claims that took effect) and `someoneLeft` are histories.
  datatype State = State(invite: Invite, members: set<User>, callers: seq<Caller>, claims: seq<int>, someoneLeft: bool)

  datatype Event =
    | Arrive(user: User, email: string)
    | ReadInvite(i: nat, now: int)
    | ReadMembership(i: nat)
    | Claim(i: nat, now: int, write: Write)
    | InsertMember(i: nat, write: Write)
    | Rollback(i: nat, write: Write)
    | Revoke
    | Leave(user: User)

  // ------------------------------------------------------------------ the steps

  function Expired(invite: Invite, now: int): bool { invite.expiresAt.Some? && invite.expiresAt.value <= now }

  // The WHERE clause of the claim.
  function Claimable(invite: Invite, now: int): bool {
    && (invite.maxUses == 0 || invite.uses < invite.maxUses)
    && !invite.revoked
    && !Expired(invite, now)
  }

  function ReadRow(invite: Invite, email: string, now: int): Phase {
    if invite.revoked then Done(IsRevoked)
    else if Expired(invite, now) then Done(IsExpired)
    else if invite.email.Some? && invite.email.value != email then Done(EmailMismatch)
    else RowRead(invite)
  }

  function ReadMember(seen: Invite, isMember: bool): Phase {
    if isMember then Done(AlreadyMember)
    else if seen.maxUses > 0 && seen.uses >= seen.maxUses then Done(Exhausted)
    else Cleared
  }

  function Move(s: State, i: nat, phase: Phase): State
    requires i < |s.callers|
  {
    s.(callers := s.callers[i := s.callers[i].(phase := phase)])
  }

  // An event that is not possible in a state changes nothing.
  function Step(s: State, e: Event): State {
    match e
    case Arrive(user, email) => s.(callers := s.callers + [Caller(user, email, Arrived)])
    case ReadInvite(i, now) =>
      if i < |s.callers| && s.callers[i].phase.Arrived?
      then Move(s, i, ReadRow(s.invite, s.callers[i].email, now)) else s
    case ReadMembership(i) =>
      if i < |s.callers| && s.callers[i].phase.RowRead?
      then Move(s, i, ReadMember(s.callers[i].phase.seen, s.callers[i].user in s.members)) else s
    case Claim(i, now, write) =>
      if i < |s.callers| && s.callers[i].phase.Cleared? then
        if write.Fails? then Move(s, i, Done(ClaimFailed(false)))
        else if Claimable(s.invite, now)
        then Move(s, i, if write.Works? then Claimed else Done(ClaimFailed(true)))
             .(invite := s.invite.(uses := s.invite.uses + 1), claims := s.claims + [now])
        else Move(s, i, Done(if write.Works? then Unavailable else ClaimFailed(false)))
      else s
    case InsertMember(i, write) =>
      if i < |s.callers| && s.callers[i].phase.Claimed? then
        if write.Fails? || s.callers[i].user in s.members then Move(s, i, RollingBack(false))
        else Move(s, i, if write.Works? then Done(Admitted) else RollingBack(true))
             .(members := s.members + {s.callers[i].user})
      else s
    case Rollback(i, write) =>
      if i < |s.callers| && s.callers[i].phase.RollingBack? then
        var joined := s.callers[i].phase.joined;
        if write.Fails? then Move(s, i, Done(InsertFailed(false, joined)))
        else Move(s, i, Done(InsertFailed(true, joined))).(invite := s.invite.(uses := s.invite.uses - 1))
      else s
    case Revoke => s.(invite := s.invite.(revoked := true))
    case Leave(user) => s.(members := s.members - {user}, someoneLeft := true)
  }

  ghost predicate Fresh(s: State) {
    s.invite.uses == 0 && s.callers == [] && s.claims == [] && !s.someoneLeft
  }

  function Run(s: State, events: seq<Event>): State {
    if events == [] then s else Step(Run(s, events[..|events| - 1]), events[|events| - 1])
  }

  // ------------------------------------------------------------- the invariant

  predicate IsAdmitted(p: Phase) { p == Done(Admitted) }

  predicate InFlight(p: Phase) { p.Claimed? || p.RollingBack? }

  // A slot nobody will use: a failed rollback, or a claim that was reported failed.
  predicate LostSlot(p: Phase) {
    p.Done? && (p.outcome == ClaimFailed(true) || (p.outcome.InsertFailed? && !p.outcome.slotBack))
  }

  predicate GaveBack(p: Phase) { p.Done? && p.outcome.InsertFailed? && p.outcome.slotBack }

  // The invite has made this caller a member.
  predicate HasJoined(p: Phase) {
    || IsAdmitted(p)
    || (p.RollingBack? && p.joined)
    || (p.Done? && p.outcome.InsertFailed? && p.outcome.joined)
  }

  // A member whose slot was given back.
  predicate JoinedForFree(p: Phase) { p == Done(InsertFailed(true, true)) }

  // A claim that will never make its caller a member.
  predicate WillNotJoin(p: Phase) { EverClaimed(p) && !p.Claimed? && !HasJoined(p) }

  predicate HoldsSlot(p: Phase) { IsAdmitted(p) || InFlight(p) || LostSlot(p) }

  predicate EverClaimed(p: Phase) { HoldsSlot(p) || GaveBack(p) }

  function Count(callers: seq<Caller>, p: Phase -> bool): nat {
    if callers == [] then 0
    else Count(callers[..|callers| - 1], p) + (if p(callers[|callers| - 1].phase) then 1 else 0)
  }

  // Past the first read, a caller has the address the invite is pinned to.
  predicate EmailFits(invite: Invite, c: Caller) {
    || invite.email.None?
    || c.email == invite.email.value
    || c.phase.Arrived?
    || c.phase in {Done(IsRevoked), Done(IsExpired), Done(EmailMismatch)}
  }

  ghost predicate SlotsAgree(s: State) {
    && s.invite.uses == Count(s.callers, HoldsSlot)
    && |s.claims| == Count(s.callers, EverClaimed)
    && (s.invite.maxUses > 0 ==> s.invite.uses <= s.invite.maxUses)
  }

  ghost predicate ClaimsInTime(s: State) {
    s.invite.expiresAt.Some? ==> forall k :: 0 <= k < |s.claims| ==> s.claims[k] < s.invite.expiresAt.value
  }

  ghost predicate EmailsFit(s: State) { forall i :: 0 <= i < |s.callers| ==> EmailFits(s.invite, s.callers[i]) }

  // While nobody leaves, those who joined are members, each of them once.
  ghost predicate AdmittedOnce(s: State) {
    !s.someoneLeft ==>
      && (forall i :: 0 <= i < |s.callers| && HasJoined(s.callers[i].phase) ==> s.callers[i].user in s.members)
      && (forall i, j :: 0 <= i < j < |s.callers| && HasJoined(s.callers[i].phase) && HasJoined(s.callers[j].phase)
                         ==> s.callers[i].user != s.callers[j].user)
  }

  ghost predicate Inv(s: State) { SlotsAgree(s) && ClaimsInTime(s) && EmailsFit(s) && AdmittedOnce(s) }

  // ---------------------------------------------------------------- the proofs

  lemma {:induction false} CountAfterMove(callers: seq<Caller>, i: nat, c: Caller, p: Phase -> bool)
    requires i < |callers|
    ensures Count(callers[i := c], p)
            == Count(callers, p) - (if p(callers[i].phase) then 1 else 0) + (if p(c.phase) then 1 else 0)
  {
    var n := |callers| - 1;
    if i < n {
      CountAfterMove(callers[..n], i, c, p);
      assert callers[i := c][..n] == callers[..n][i := c];
    } else {
      assert callers[i := c][..n] == callers[..n];
    }
  }

  function Bit(b: bool): int { if b then 1 else 0 }

  lemma MoveCounts(s: State, i: nat, phase: Phase)
    requires i < |s.callers|
    ensures var callers, was := Move(s, i, phase).callers, s.callers[i].phase;
      && Count(callers, HoldsSlot) == Count(s.callers, HoldsSlot) - Bit(HoldsSlot(was)) + Bit(HoldsSlot(phase))
      && Count(callers, EverClaimed) == Count(s.callers, EverClaimed) - Bit(EverClaimed(was)) + Bit(EverClaimed(phase))
  {
    CountAfterMove(s.callers, i, s.callers[i].(phase := phase), HoldsSlot);
    CountAfterMove(s.callers, i, s.callers[i].(phase := phase), EverClaimed);
  }

  // A move of caller `i` that changes `uses` and the number of claims as it should.
  lemma MoveAgrees(s: State, t: State, i: nat, phase: Phase)
    requires SlotsAgree(s) && i < |s.callers|
    requires t.callers == Move(s, i, phase).callers && t.invite.maxUses == s.invite.maxUses
    requires t.invite.uses == s.invite.uses - Bit(HoldsSlot(s.callers[i].phase)) + Bit(HoldsSlot(phase))
    requires |t.claims| == |s.claims| - Bit(EverClaimed(s.callers[i].phase)) + Bit(EverClaimed(phase))
    requires t.invite.uses <= s.invite.uses || t.invite.maxUses == 0 || s.invite.uses < s.invite.maxUses
    ensures SlotsAgree(t)
  {
    MoveCounts(s, i, phase);
  }

  // Slots and claims stay accounted for, and within the limit.
  lemma ClaimAgrees(s: State, i: nat, now: int, write: Write)
    requires SlotsAgree(s)
    ensures SlotsAgree(Step(s, Claim(i, now, write)))
  {
    if i < |s.callers| && s.callers[i].phase.Cleared? {
      var t := Step(s, Claim(i, now, write));
      MoveAgrees(s, t, i, t.callers[i].phase);
    }
  }

  lemma InsertAgrees(s: State, i: nat, write: Write)
    requires SlotsAgree(s)
    ensures SlotsAgree(Step(s, InsertMember(i, write)))
  {
    if i < |s.callers| && s.callers[i].phase.Claimed? {
      var t := Step(s, InsertMember(i, write));
      MoveAgrees(s, t, i, t.callers[i].phase);
    }
  }

  lemma RollbackAgrees(s: State, i: nat, write: Write)
    requires SlotsAgree(s)
    ensures SlotsAgree(Step(s, Rollback(i, write)))
  {
    if i < |s.callers| && s.callers[i].phase.RollingBack? {
      var t := Step(s, Rollback(i, write));
      MoveAgrees(s, t, i, t.callers[i].phase);
    }
  }

  lemma SlotsStayAgreed(s: State, e: Event)
    requires SlotsAgree(s)
    ensures SlotsAgree(Step(s, e))
  {
    var t := Step(s, e);
    match e
    case Arrive(user, email) => assert t.callers[..|t.callers| - 1] == s.callers;
    case ReadInvite(i, _) => if t != s { MoveAgrees(s, t, i, t.callers[i].phase); }
    case ReadMembership(i) => if t != s { MoveAgrees(s, t, i, t.callers[i].phase); }
    case Claim(i, now, write) => ClaimAgrees(s, i, now, write);
    case InsertMember(i, write) => InsertAgrees(s, i, write);
    case Rollback(i, write) => RollbackAgrees(s, i, write);
    case _ =>
  }

  lemma EmailsStayFit(s: State, e: Event)
    requires EmailsFit(s)
    ensures EmailsFit(Step(s, e))
  {
  }

  // A caller joins only while not a member, and is one afterwards.
  lemma MoveKeepsOnce(s: State, t: State, i: nat, phase: Phase)
    requires AdmittedOnce(s) && i < |s.callers| && t.callers == Move(s, i, phase).callers
    requires t.someoneLeft == s.someoneLeft && s.members <= t.members
    requires HasJoined(phase) ==>
      HasJoined(s.callers[i].phase) || (s.callers[i].user !in s.members && s.callers[i].user in t.members)
    ensures AdmittedOnce(t)
  {
  }

  lemma AdmittedStayOnce(s: State, e: Event)
    requires AdmittedOnce(s)
    ensures AdmittedOnce(Step(s, e))
  {
    var t := Step(s, e);
    match e
    case Arrive(_, _) =>
    case Revoke =>
    case Leave(_) =>
    case ReadInvite(i, _) => if t != s { MoveKeepsOnce(s, t, i, t.callers[i].phase); }
    case ReadMembership(i) => if t != s { MoveKeepsOnce(s, t, i, t.callers[i].phase); }
    case Claim(i, _, _) => if t != s { MoveKeepsOnce(s, t, i, t.callers[i].phase); }
    case InsertMember(i, write) => InsertKeepsOnce(s, i, write);
    case Rollback(i, write) => RollbackKeepsOnce(s, i, write);
  }

  lemma InsertKeepsOnce(s: State, i: nat, write: Write)
    requires AdmittedOnce(s)
    ensures AdmittedOnce(Step(s, InsertMember(i, write)))
  {
    var t := Step(s, InsertMember(i, write));
    if t != s { MoveKeepsOnce(s, t, i, t.callers[i].phase); }
  }

  lemma RollbackKeepsOnce(s: State, i: nat, write: Write)
    requires AdmittedOnce(s)
    ensures AdmittedOnce(Step(s, Rollback(i, write)))
  {
    var t := Step(s, Rollback(i, write));
    if t != s { MoveKeepsOnce(s, t, i, t.callers[i].phase); }
  }

  lemma StepKeeps(s: State, e: Event)
    requires Inv(s)
    ensures Inv(Step(s, e))
  {
    SlotsStayAgreed(s, e);
    EmailsStayFit(s, e);
    AdmittedStayOnce(s, e);
    assert ClaimsInTime(Step(s, e));
  }

  lemma {:induction false} RunKeeps(s: State, events: seq<Event>)
    requires Fresh(s)
    ensures Inv(Run(s, events))
  {
    if events != [] {
      RunKeeps(s, events[..|events| - 1]);
      StepKeeps(Run(s, events[..|events| - 1]), events[|events| - 1]);
    }
  }

  // ------------------------------------------------------------------ theorems

  lemma {:induction false} HoldersAre(callers: seq<Caller>)
    ensures Count(callers, HoldsSlot)
         == Count(callers, IsAdmitted) + Count(callers, InFlight) + Count(callers, LostSlot)
    ensures Count(callers, HasJoined) <= Count(callers, HoldsSlot) + Count(callers, JoinedForFree)
    ensures Count(callers, EverClaimed)
         == Count(callers, HasJoined) + Count(callers, IsClaimed) + Count(callers, WillNotJoin)
  {
    if callers != [] { HoldersAre(callers[..|callers| - 1]); }
  }

  predicate IsClaimed(p: Phase) { p.Claimed? }

  /** `uses` is the number admitted, plus the claims in flight, plus the slots lost to writes
   *  that failed; with a limit it never exceeds the limit, and the members the invite has
   *  made exceed it at most by those whose insert was reported failed and rolled back. */
  lemma {:induction false} UsesAreAccountedFor(s: State, events: seq<Event>)
    requires Fresh(s)
    ensures var t := Run(s, events);
      && t.invite.uses == Count(t.callers, IsAdmitted) + Count(t.callers, InFlight) + Count(t.callers, LostSlot)
      && (t.invite.maxUses > 0 ==>
            && Count(t.callers, IsAdmitted) <= t.invite.uses <= t.invite.maxUses
            && Count(t.callers, HasJoined) <= t.invite.maxUses + Count(t.callers, JoinedForFree))
  {
    RunKeeps(s, events);
    HoldersAre(Run(s, events).callers);
  }

  // No insert commits while it is reported failed.
  ghost predicate InsertsReport(events: seq<Event>) {
    forall n :: 0 <= n < |events| && events[n].InsertMember? ==> !events[n].write.CommitsUnreported?
  }

  lemma {:induction false} NobodyJoinsForFree(s: State, events: seq<Event>)
    requires Fresh(s) && InsertsReport(events)
    ensures forall i :: 0 <= i < |Run(s, events).callers| ==>
              var p := Run(s, events).callers[i].phase;
              (HasJoined(p) ==> IsAdmitted(p)) && !JoinedForFree(p)
  {
    if events != [] { NobodyJoinsForFree(s, events[..|events| - 1]); }
  }

  lemma {:induction false} CountNone(callers: seq<Caller>, p: Phase -> bool)
    requires forall i :: 0 <= i < |callers| ==> !p(callers[i].phase)
    ensures Count(callers, p) == 0
  {
    if callers != [] { CountNone(callers[..|callers| - 1], p); }
  }

  /** If every insert's report is true, the invite never makes more members than its limit. */
  lemma {:induction false} LimitHoldsWhenInsertsReport(s: State, events: seq<Event>)
    requires Fresh(s) && InsertsReport(events)
    ensures var t := Run(s, events); t.invite.maxUses > 0 ==> Count(t.callers, HasJoined) <= t.invite.maxUses
  {
    NobodyJoinsForFree(s, events);
    CountNone(Run(s, events).callers, JoinedForFree);
    UsesAreAccountedFor(s, events);
  }

  // One caller, from arrival to its insert.
  function JoinEvents(i: nat, user: User, email: string, now: int, insert: Write): seq<Event> {
    [Arrive(user, email), ReadInvite(i, now), ReadMembership(i), Claim(i, now, Works), InsertMember(i, insert)]
  }

  ghost predicate OpenTo(s: State, user: User, email: string, now: int) {
    && Claimable(s.invite, now) && user !in s.members
    && (s.invite.email.Some? ==> s.invite.email.value == email)
  }

  lemma RunFive(s: State, a: Event, b: Event, c: Event, d: Event, e: Event)
    ensures Run(s, [a, b, c, d, e]) == Step(Step(Step(Step(Step(s, a), b), c), d), e)
  {
    assert [a, b, c, d, e][..4] == [a, b, c, d] && [a, b, c, d][..3] == [a, b, c];
    assert [a, b, c][..2] == [a, b] && [a, b][..1] == [a] && [a][..0] == [];
    assert Run(s, [a]) == Step(s, a);
    assert Run(s, [a, b]) == Step(Step(s, a), b);
    assert Run(s, [a, b, c]) == Step(Step(Step(s, a), b), c);
    assert Run(s, [a, b, c, d]) == Step(Step(Step(Step(s, a), b), c), d);
  }

  function WithCaller(s: State, user: User, email: string, phase: Phase): State {
    s.(callers := s.callers + [Caller(user, email, phase)])
  }

  lemma MoveLast(s: State, user: User, email: string, phase: Phase, next: Phase)
    ensures Move(WithCaller(s, user, email, phase), |s.callers|, next) == WithCaller(s, user, email, next)
  {
  }

  lemma ReadsGoThrough(s: State, user: User, email: string, now: int)
    requires OpenTo(s, user, email, now)
    ensures var i := |s.callers|;
      Step(Step(Step(s, Arrive(user, email)), ReadInvite(i, now)), ReadMembership(i))
      == WithCaller(s, user, email, Cleared)
  {
    var i := |s.callers|;
    assert Step(s, Arrive(user, email)) == WithCaller(s, user, email, Arrived);
    MoveLast(s, user, email, Arrived, RowRead(s.invite));
    MoveLast(s, user, email, RowRead(s.invite), Cleared);
  }

  lemma WritesGoThrough(s: State, user: User, email: string, now: int, insert: Write)
    requires OpenTo(s, user, email, now) && !insert.Fails?
    ensures var i := |s.callers|;
      Step(Step(WithCaller(s, user, email, Cleared), Claim(i, now, Works)), InsertMember(i, insert))
      == JoinedState(s, user, email, now, insert)
  {
    var i, t := |s.callers|, s.(invite := s.invite.(uses := s.invite.uses + 1), claims := s.claims + [now]);
    MoveLast(t, user, email, Cleared, Claimed);
    assert Step(WithCaller(s, user, email, Cleared), Claim(i, now, Works)) == WithCaller(t, user, email, Claimed);
    MoveLast(t, user, email, Claimed, if insert.Works? then Done(Admitted) else RollingBack(true));
  }

  // A caller the invite is open to becomes a member.
  lemma JoinGoesThrough(s: State, user: User, email: string, now: int, insert: Write)
    requires OpenTo(s, user, email, now) && !insert.Fails?
    ensures Run(s, JoinEvents(|s.callers|, user, email, now, insert)) == JoinedState(s, user, email, now, insert)
  {
    var i := |s.callers|;
    RunFive(s, Arrive(user, email), ReadInvite(i, now), ReadMembership(i), Claim(i, now, Works),
            InsertMember(i, insert));
    ReadsGoThrough(s, user, email, now);
    WritesGoThrough(s, user, email, now, insert);
  }

  function JoinedState(s: State, user: User, email: string, now: int, insert: Write): State {
    State(s.invite.(uses := s.invite.uses + 1), s.members + {user},
          s.callers + [Caller(user, email, if insert.Works? then Done(Admitted) else RollingBack(true))],
          s.claims + [now], s.someoneLeft)
  }

  // From a state with room for `n` more, `n` more join.
  lemma {:induction false} Fill(s: State, n: nat, user: User, email: string, now: int) returns (events: seq<Event>)
    requires forall u :: user <= u < user + n ==> u !in s.members
    requires !s.invite.revoked && !Expired(s.invite, now) && s.invite.uses + n <= s.invite.maxUses
    requires s.invite.email.Some? ==> s.invite.email.value == email
    ensures Count(Run(s, events).callers, HasJoined) == Count(s.callers, HasJoined) + n
    ensures Run(s, events).invite.maxUses == s.invite.maxUses
    decreases n
  {
    if n == 0 {
      events := [];
    } else {
      var first := JoinEvents(|s.callers|, user, email, now, Works);
      JoinGoesThrough(s, user, email, now, Works);
      var t := Run(s, first);
      assert t.callers[..|s.callers|] == s.callers;
      var rest := Fill(t, n - 1, user + 1, email, now);
      events := first + rest;
      RunsAppend(s, first, rest);
    }
  }

  // One insert that commits, is reported failed and is rolled back.
  lemma JoinForFree(s: State, user: User, email: string, now: int) returns (events: seq<Event>)
    requires OpenTo(s, user, email, now)
    ensures Run(s, events)
         == State(s.invite, s.members + {user}, s.callers + [Caller(user, email, Done(InsertFailed(true, true)))],
                  s.claims + [now], s.someoneLeft)
  {
    var i := |s.callers|;
    var join := JoinEvents(i, user, email, now, CommitsUnreported);
    JoinGoesThrough(s, user, email, now, CommitsUnreported);
    events := join + [Rollback(i, Works)];
    assert events[..|events| - 1] == join;
  }

  /** The condition is needed, for every limit: one insert that commits and is reported failed
   *  lets an open invite make one member more than its limit. */
  lemma UnreportedInsertOvershoots(s: State, user: User, email: string, now: int) returns (events: seq<Event>)
    requires Fresh(s) && s.invite.maxUses > 0 && Claimable(s.invite, now)
    requires forall u :: u >= user ==> u !in s.members
    requires s.invite.email.Some? ==> s.invite.email.value == email
    ensures var t := Run(s, events); Count(t.callers, HasJoined) == t.invite.maxUses + 1
  {
    var first := JoinForFree(s, user, email, now);
    var t := Run(s, first);
    assert t.callers == [Caller(user, email, Done(InsertFailed(true, true)))] && t.callers[..0] == [];
    assert Count(t.callers, HasJoined) == 1;
    var rest := Fill(t, t.invite.maxUses, user + 1, email, now);
    events := first + rest;
    RunsAppend(s, first, rest);
  }

  /** A claim is turned down exactly when the invite is revoked, expired, or all its slots
   *  are held by those admitted, in flight, or lost. */
  lemma TurnedDownExactlyWhenFull(s: State, events: seq<Event>, i: nat, now: int)
    requires Fresh(s) && i < |Run(s, events).callers| && Run(s, events).callers[i].phase.Cleared?
    ensures var t := Run(s, events);
      Step(t, Claim(i, now, Works)).callers[i].phase == Done(Unavailable) <==>
        (t.invite.revoked || Expired(t.invite, now) ||
         (t.invite.maxUses > 0 &&
          Count(t.callers, IsAdmitted) + Count(t.callers, InFlight) + Count(t.callers, LostSlot) == t.invite.maxUses))
  {
    RunKeeps(s, events);
    HoldersAre(Run(s, events).callers);
  }

  // Every claim that took effect was made before the invite expired.
  lemma {:induction false} NoClaimOnceExpired(s: State, events: seq<Event>, k: nat)
    requires Fresh(s) && k < |Run(s, events).claims|
    ensures var t := Run(s, events); t.invite.expiresAt.Some? ==> t.claims[k] < t.invite.expiresAt.value
  {
    RunKeeps(s, events);
  }

  lemma {:induction false} RevokedStays(s: State, more: seq<Event>)
    requires s.invite.revoked
    ensures Run(s, more).invite.revoked && Run(s, more).claims == s.claims
  {
    if more != [] { RevokedStays(s, more[..|more| - 1]); }
  }

  lemma {:induction false} RunsAppend(s: State, events: seq<Event>, more: seq<Event>)
    ensures Run(s, events + more) == Run(Run(s, events), more)
  {
    if more == [] {
      assert events + more == events;
    } else {
      assert (events + more)[..|events + more| - 1] == events + more[..|more| - 1];
      RunsAppend(s, events, more[..|more| - 1]);
    }
  }

  lemma {:induction false} NonJoinersStay(s: State, more: seq<Event>)
    ensures Count(s.callers, WillNotJoin) <= Count(Run(s, more).callers, WillNotJoin)
  {
    if more != [] {
      NonJoinersStay(s, more[..|more| - 1]);
      NonJoinersStayInStep(Run(s, more[..|more| - 1]), more[|more| - 1]);
    }
  }

  lemma NonJoinerStays(s: State, e: Event, i: nat)
    requires i < |s.callers|
    ensures i < |Step(s, e).callers|
    ensures WillNotJoin(s.callers[i].phase) ==> WillNotJoin(Step(s, e).callers[i].phase)
  {
  }

  lemma {:induction false} CountGrows(callers: seq<Caller>, more: seq<Caller>, p: Phase -> bool)
    requires |callers| <= |more|
    requires forall i :: 0 <= i < |callers| && p(callers[i].phase) ==> p(more[i].phase)
    ensures Count(callers, p) <= Count(more, p)
    decreases |more|
  {
    if more != [] {
      var shorter := if |callers| == |more| then callers[..|callers| - 1] else callers;
      CountGrows(shorter, more[..|more| - 1], p);
    }
  }

  lemma NonJoinersStayInStep(s: State, e: Event)
    ensures Count(s.callers, WillNotJoin) <= Count(Step(s, e).callers, WillNotJoin)
  {
    var t := Step(s, e);
    assert |s.callers| <= |t.callers|;
    forall i | 0 <= i < |s.callers| && WillNotJoin(s.callers[i].phase)
      ensures WillNotJoin(t.callers[i].phase)
    {
      NonJoinerStays(s, e, i);
    }
    CountGrows(s.callers, t.callers, WillNotJoin);
  }

  /** After a revoke no claim takes effect any more, and only those who hold a slot and are
   *  about to be inserted can still become members. */
  lemma RevokeStopsAdmissions(s: State, events: seq<Event>, more: seq<Event>)
    requires Fresh(s)
    ensures var t, u := Run(s, events + [Revoke]), Run(s, events + [Revoke] + more);
      && u.claims == t.claims && u.invite.revoked
      && Count(u.callers, HasJoined) <= Count(t.callers, HasJoined) + Count(t.callers, IsClaimed)
  {
    var revoked := events + [Revoke];
    var t := Run(s, revoked);
    assert revoked[..|events|] == events;
    RunsAppend(s, revoked, more);
    RevokedStays(t, more);
    NonJoinersStay(t, more);
    RunKeeps(s, revoked);
    RunKeeps(s, revoked + more);
    HoldersAre(t.callers);
    HoldersAre(Run(s, revoked + more).callers);
  }

  /** A caller is turned away by what is so at the moment it reads, and told why: the invite is
   *  revoked, else expired, else for another address; then they are a member, else it is full. */
  lemma ReadsTurnAwayExactlyWhen(s: State, i: nat, now: int)
    requires i < |s.callers|
    ensures s.callers[i].phase.Arrived? ==>
      var p, it := Step(s, ReadInvite(i, now)).callers[i].phase, s.invite;
      var late := it.expiresAt.Some? && it.expiresAt.value <= now;
      var other := it.email.Some? && it.email.value != s.callers[i].email;
      && (p == Done(IsRevoked) <==> it.revoked)
      && (p == Done(IsExpired) <==> !it.revoked && late)
      && (p == Done(EmailMismatch) <==> !it.revoked && !late && other)
      && (p == RowRead(it) <==> !it.revoked && !late && !other)
    ensures s.callers[i].phase.RowRead? ==>
      var p, seen := Step(s, ReadMembership(i)).callers[i].phase, s.callers[i].phase.seen;
      var full := seen.maxUses > 0 && seen.uses >= seen.maxUses;
      && (p == Done(AlreadyMember) <==> s.callers[i].user in s.members)
      && (p == Done(Exhausted) <==> s.callers[i].user !in s.members && full)
      && (p == Cleared <==> s.callers[i].user !in s.members && !full)
  {
  }

  /** Members come by an insert of a caller that holds a slot, whatever it is reported to have
   *  done, and go only by leaving; slots are taken by claims and given back by rollbacks. */
  lemma MembersAndSlotsMoveExactlyWhen(s: State, e: Event, u: User)
    ensures var t := Step(s, e);
      && (u in t.members <==>
            || (u in s.members && e != Leave(u))
            || (e.InsertMember? && e.i < |s.callers| && s.callers[e.i].phase.Claimed? && s.callers[e.i].user == u
                && !e.write.Fails?))
      && t.invite.uses == s.invite.uses
         + (if e.Claim? && e.i < |s.callers| && s.callers[e.i].phase.Cleared? && !e.write.Fails?
               && (s.invite.maxUses == 0 || s.invite.uses < s.invite.maxUses) && !s.invite.revoked
               && (s.invite.expiresAt.Some? ==> e.now < s.invite.expiresAt.value) then 1 else 0)
         - (if e.Rollback? && e.i < |s.callers| && s.callers[e.i].phase.RollingBack? && !e.write.Fails? then 1 else 0)
  {
  }

  /** What a caller is told of its writes is what they were reported to do: admitted exactly if
   *  the insert was reported to work, and otherwise whether the slot is given back. */
  lemma WritesAreReportedAs(s: State, i: nat, now: int, write: Write)
    requires i < |s.callers|
    ensures s.callers[i].phase.Cleared? ==>
      var t := Step(s, Claim(i, now, write)); var took := t.invite.uses == s.invite.uses + 1;
      && (t.callers[i].phase == Claimed <==> write.Works? && took)
      && (t.callers[i].phase == Done(Unavailable) <==> write.Works? && !took)
      && (t.callers[i].phase == Done(ClaimFailed(took)) <==> !write.Works?)
    ensures s.callers[i].phase.Claimed? ==>
      var t := Step(s, InsertMember(i, write)); var joins := s.callers[i].user !in s.members && !write.Fails?;
      && (t.callers[i].phase == Done(Admitted) <==> write.Works? && joins)
      && (t.callers[i].phase == RollingBack(joins) <==> !(write.Works? && joins))
    ensures s.callers[i].phase.RollingBack? ==>
      var t := Step(s, Rollback(i, write));
      t.callers[i].phase == Done(InsertFailed(!write.Fails?, s.callers[i].phase.joined))
  {
  }

  // A pinned invite makes nobody a member but the address it was sent to.
  lemma PinnedInviteAdmitsItsEmail(s: State, events: seq<Event>, i: nat)
    requires Fresh(s) && i < |Run(s, events).callers| && HasJoined(Run(s, events).callers[i].phase)
    ensures var t := Run(s, events); t.invite.email.Some? ==> t.callers[i].email == t.invite.email.value
  {
    RunKeeps(s, events);
  }

  // While nobody leaves, no user is made a member twice, however often they click.
  lemma NobodyIsAdmittedTwice(s: State, events: seq<Event>, i: nat, j: nat)
    requires Fresh(s) && !Run(s, events).someoneLeft
    requires i < j < |Run(s, events).callers|
    requires HasJoined(Run(s, events).callers[i].phase) && HasJoined(Run(s, events).callers[j].phase)
    ensures Run(s, events).callers[i].user != Run(s, events).callers[j].user
  {
    RunKeeps(s, events);
  }

  // ------------------------------------------------------------------ the tables

  /** The rows the handler works on, and one request on its own. */
  class InviteTables {
    var invite: Invite
    var members: set<User>

    constructor (invite: Invite, members: set<User>)
      ensures this.invite == invite && this.members == members
    {
      this.invite, this.members := invite, members;
    }

    // The conditional update; it never takes the count past the limit.
    method ClaimSlot(now: int) returns (claimed: bool)
      modifies this`invite
      ensures claimed == Claimable(old(invite), now)
      ensures invite == if claimed then old(invite).(uses := old(invite).uses + 1) else old(invite)
      ensures invite.maxUses > 0 && old(invite).uses <= invite.maxUses ==> invite.uses <= invite.maxUses
    {
      claimed := Claimable(invite, now);
      if claimed { invite := invite.(uses := invite.uses + 1); }
    }

    /** With nothing in between, a caller becomes a member exactly under these conditions, and
     *  is counted exactly if admitted, or if the rollback fails. */
    method Accept(user: User, email: string, readAt: int, claimAt: int, insert: Write, rollback: Write)
      returns (outcome: Outcome)
      modifies this
      ensures HasJoined(Done(outcome)) <==>
        && !old(invite).revoked && !Expired(old(invite), readAt) && !Expired(old(invite), claimAt)
        && (old(invite).email.Some? ==> old(invite).email.value == email)
        && user !in old(members)
        && (old(invite).maxUses == 0 || old(invite).uses < old(invite).maxUses)
        && !insert.Fails?
      ensures outcome == Admitted <==> HasJoined(Done(outcome)) && insert.Works?
      ensures members == if HasJoined(Done(outcome)) then old(members) + {user} else old(members)
      ensures invite == old(invite).(uses := old(invite).uses + Bit(HoldsSlot(Done(outcome))))
      ensures GaveBack(Done(outcome)) ==> !rollback.Fails?
    {
      var seen := invite;
      if seen.revoked { return IsRevoked; }
      if Expired(seen, readAt) { return IsExpired; }
      if seen.email.Some? && seen.email.value != email { return EmailMismatch; }
      if user in members { return AlreadyMember; }
      if seen.maxUses > 0 && seen.uses >= seen.maxUses { return Exhausted; }
      var claimed := ClaimSlot(claimAt);
      if !claimed { return Unavailable; }
      if !insert.Fails? { members := members + {user}; }
      if insert.Works? { return Admitted; }
      if !rollback.Fails? { invite := invite.(uses := invite.uses - 1); }
      return InsertFailed(!rollback.Fails?, !insert.Fails?);
    }
  }
}
