/** The bridge's run ledger: one run's row, and the PATCH requests that race for it.
 *
 *  A PATCH reads the row, checks itself against what it read, writes by an UPDATE guarded
 *  on an active status, and reads the row again for its answer.
 */
module RunLedger {
  import opened Wrappers

  datatype Status = Queued | Dispatched | Running | WaitingInput | Completed | Failed | Cancelled

  predicate Terminal(status: Status) { status.Completed? || status.Failed? || status.Cancelled? }

  // What a PATCH may ask for.
  type Target = status: Status | !status.Queued? && !status.Dispatched? witness Running

  datatype Row = Row(
    status: Status, startedAt: Option<int>, completedAt: Option<int>, updatedAt: int,
    output: Option<string>, error: Option<string>)

  // A field of the request body: left out, null, or a value.
  datatype Field = Absent | Null | Value(text: string)

  datatype Body = Body(status: Target, output: Field, error: Field)

  datatype Answer = Finalized | InvalidOutput | MissingOutput | Accepted(shown: Row)

  datatype Phase = Read(seen: Row) | Checked(seen: Row) | Wrote | Done(answer: Answer)

  datatype Patcher = Patcher(body: Body, phase: Phase)

  // `finals` counts the terminal writes that took effect, `winner` made the last of them.
  datatype State = State(row: Row, patchers: seq<Patcher>, finals: nat, winner: Option<nat>)

  datatype Event =
    | Open(body: Body)
    | Check(i: nat, belongs: bool)
    | Write(i: nat, now: int)
    | ReadAgain(i: nat)

  // ------------------------------------------------------------------ the steps

  function Resolve(was: Option<string>, field: Field): Option<string> {
    match field
    case Absent => was
    case Null => None
    case Value(text) => Some(text)
  }

  function CheckBody(body: Body, seen: Row, belongs: bool): Phase {
    if body.output.Value? && !belongs then Done(InvalidOutput)
    else if body.status.Completed? && Resolve(seen.output, body.output).None? then Done(MissingOutput)
    else Checked(seen)
  }

  // The row after the UPDATE: its start time comes from the earlier read.
  function Patched(row: Row, seen: Row, body: Body, now: int): Row {
    Row(
      body.status,
      Some(if seen.startedAt.Some? then seen.startedAt.value else now),
      if Terminal(body.status) then Some(now) else row.completedAt,
      now,
      Resolve(row.output, body.output),
      if body.status.Completed? then None else Resolve(row.error, body.error))
  }

  function AnswerFor(body: Body, current: Row): Answer {
    if current.status != body.status && Terminal(current.status) then Finalized else Accepted(current)
  }

  function Move(s: State, i: nat, phase: Phase): State
    requires i < |s.patchers|
  {
    s.(patchers := s.patchers[i := s.patchers[i].(phase := phase)])
  }

  // An event that is not possible in a state changes nothing.
  function Step(s: State, e: Event): State {
    match e
    case Open(body) =>
      s.(patchers := s.patchers + [Patcher(body, if Terminal(s.row.status) then Done(Finalized) else Read(s.row))])
    case Check(i, belongs) =>
      if i < |s.patchers| && s.patchers[i].phase.Read?
      then Move(s, i, CheckBody(s.patchers[i].body, s.patchers[i].phase.seen, belongs)) else s
    case Write(i, now) =>
      if i < |s.patchers| && s.patchers[i].phase.Checked? then
        if Terminal(s.row.status) then Move(s, i, Wrote)
        else
          var p := s.patchers[i];
          Move(s, i, Wrote).(row := Patched(s.row, p.phase.seen, p.body, now),
                             finals := s.finals + (if Terminal(p.body.status) then 1 else 0),
                             winner := if Terminal(p.body.status) then Some(i) else s.winner)
      else s
    case ReadAgain(i) =>
      if i < |s.patchers| && s.patchers[i].phase.Wrote?
      then Move(s, i, Done(AnswerFor(s.patchers[i].body, s.row))) else s
  }

  // A run as the ledger creates it.
  function Created(status: Status, now: int): State
    requires status.Queued? || status.Dispatched?
  {
    State(Row(status, None, None, now, None, None), [], 0, None)
  }

  ghost predicate IsCreated(s: State) {
    (s.row.status.Queued? || s.row.status.Dispatched?) && s == Created(s.row.status, s.row.updatedAt)
  }

  function Run(s: State, events: seq<Event>): State {
    if events == [] then s else Step(Run(s, events[..|events| - 1]), events[|events| - 1])
  }

  // ------------------------------------------------------------- the invariant

  predicate RowFits(row: Row, finals: nat) {
    && finals == (if Terminal(row.status) then 1 else 0)
    && (Terminal(row.status) <==> row.completedAt.Some?)
    && (Terminal(row.status) ==> row.startedAt.Some?)
    && (row.status.Completed? ==> row.error.None?)
  }

  predicate PatcherFits(row: Row, p: Patcher) {
    match p.phase
    case Read(seen) => seen.startedAt.Some? ==> row.startedAt.Some?
    case Checked(seen) =>
      && (seen.startedAt.Some? ==> row.startedAt.Some?)
      && (p.body.status.Completed? ==> Resolve(seen.output, p.body.output).Some?)
    case Wrote => Terminal(p.body.status) ==> Terminal(row.status)
    case Done(Accepted(shown)) =>
      && (Terminal(shown.status) ==> shown == row)
      && (Terminal(p.body.status) ==> shown.status == p.body.status)
    case Done(Finalized) => Terminal(row.status)
    case Done(_) => true
  }

  // The PATCH that ended the run is the one whose fields the row has.
  predicate WinnerFits(s: State) {
    && (s.winner.Some? <==> Terminal(s.row.status))
    && (s.winner.Some? ==>
          && s.winner.value < |s.patchers|
          && var body := s.patchers[s.winner.value].body;
             && s.row.status == body.status
             && (!body.output.Absent? ==> s.row.output == Resolve(None, body.output))
             && (!body.status.Completed? && !body.error.Absent? ==> s.row.error == Resolve(None, body.error)))
  }

  ghost predicate Inv(s: State) {
    RowFits(s.row, s.finals) && WinnerFits(s) && forall i :: 0 <= i < |s.patchers| ==> PatcherFits(s.row, s.patchers[i])
  }

  lemma WriteKeeps(s: State, i: nat, now: int)
    requires Inv(s)
    ensures Inv(Step(s, Write(i, now)))
  {
  }

  lemma StepKeeps(s: State, e: Event)
    requires Inv(s)
    ensures Inv(Step(s, e))
    ensures s.row.startedAt.Some? ==> Step(s, e).row.startedAt.Some?
    ensures Terminal(s.row.status) ==> Step(s, e).row == s.row
  {
    if e.Write? { WriteKeeps(s, e.i, e.now); }
  }

  lemma {:induction false} RunKeeps(s: State, more: seq<Event>)
    requires Inv(s)
    ensures Inv(Run(s, more))
    ensures s.row.startedAt.Some? ==> Run(s, more).row.startedAt.Some?
    ensures Terminal(s.row.status) ==> Run(s, more).row == s.row
  {
    if more != [] {
      RunKeeps(s, more[..|more| - 1]);
      StepKeeps(Run(s, more[..|more| - 1]), more[|more| - 1]);
    }
  }

  lemma {:induction false} RunsAppend(s: State, events: seq<Event>, more: seq<Event>)
    ensures Run(s, events + more) == Run(Run(s, events), more)
  {
    if more == [] {
      assert events + more == events;
    } else {
      assert (events + more)[..|events + more| - 1] == events + more[..|more| - 1];
      RunsAppend(s, events, more[..|more| - 1]);
    }
  }

  // ------------------------------------------------------------------ theorems

  // At most one terminal write takes effect, and exactly one in a run that has ended.
  lemma {:induction false} OneTerminalWrite(s: State, events: seq<Event>)
    requires IsCreated(s)
    ensures var t := Run(s, events); t.finals == if Terminal(t.row.status) then 1 else 0
  {
    RunKeeps(s, events);
  }

  /** Once a run has ended, whatever still arrives or was already under way, nothing in its
   *  row ever changes. */
  lemma FinalRowsNeverChange(s: State, events: seq<Event>, more: seq<Event>)
    requires IsCreated(s) && Terminal(Run(s, events).row.status)
    ensures Run(s, events + more).row == Run(s, events).row
  {
    RunKeeps(s, events);
    RunsAppend(s, events, more);
    RunKeeps(Run(s, events), more);
  }

  // A start time, once set, is never cleared, and a run that has ended has both its times.
  lemma StartIsNeverCleared(s: State, events: seq<Event>, more: seq<Event>)
    requires IsCreated(s)
    ensures Run(s, events).row.startedAt.Some? ==> Run(s, events + more).row.startedAt.Some?
    ensures var row := Run(s, events).row;
      && (Terminal(row.status) ==> row.startedAt.Some?)
      && (Terminal(row.status) <==> row.completedAt.Some?)
  {
    RunKeeps(s, events);
    RunsAppend(s, events, more);
    RunKeeps(Run(s, events), more);
  }

  // Every PATCH that has yet to write has read the start time the row has now.
  ghost predicate StartWasRead(s: State) {
    s.row.startedAt.Some? && forall i :: 0 <= i < |s.patchers| ==> ReadStart(s.patchers[i], s.row.startedAt)
  }

  predicate ReadStart(p: Patcher, at: Option<int>) {
    match p.phase
    case Read(seen) => seen.startedAt == at
    case Checked(seen) => seen.startedAt == at
    case _ => true
  }

  /** Once the PATCHes under way have read the start time, it stays what it is for good; until
   *  then the last of those that had not read it decides. */
  lemma {:induction false} StartIsKeptOnceRead(s: State, more: seq<Event>)
    requires StartWasRead(s)
    ensures StartWasRead(Run(s, more)) && Run(s, more).row.startedAt == s.row.startedAt
  {
    if more != [] { StartIsKeptOnceRead(s, more[..|more| - 1]); }
  }

  /** A PATCH that takes effect keeps the start time it read, or sets it to its own time if there
   *  was none; one that ends the run sets the end to its own time, and none other sets one. */
  lemma TimesOfAWrite(s: State, i: nat, now: int)
    requires i < |s.patchers| && s.patchers[i].phase.Checked? && !Terminal(s.row.status)
    ensures var p, row := s.patchers[i], Step(s, Write(i, now)).row;
      && row.status == p.body.status && row.updatedAt == now
      && (p.phase.seen.startedAt.Some? ==> row.startedAt == p.phase.seen.startedAt)
      && (p.phase.seen.startedAt.None? ==> row.startedAt == Some(now))
      && (Terminal(p.body.status) ==> row.completedAt == Some(now))
      && (!Terminal(p.body.status) ==> row.completedAt == s.row.completedAt)
  {
  }

  // Every check tells whether the message belongs to the run: those that do are `own`.
  ghost predicate ChecksTell(s: State, events: seq<Event>, own: set<string>)
    decreases |events|
  {
    events == [] ||
      (ChecksTell(s, events[..|events| - 1], own)
       && CheckTells(Run(s, events[..|events| - 1]), events[|events| - 1], own))
  }

  predicate CheckTells(s: State, e: Event, own: set<string>) {
    e.Check? && e.i < |s.patchers| && s.patchers[e.i].body.output.Value? ==>
      (e.belongs <==> s.patchers[e.i].body.output.text in own)
  }

  ghost predicate OutputsBelong(s: State, own: set<string>) {
    && (s.row.output.Some? ==> s.row.output.value in own)
    && (forall i :: 0 <= i < |s.patchers| && s.patchers[i].phase.Checked? && s.patchers[i].body.output.Value? ==>
          s.patchers[i].body.output.text in own)
  }

  /** In every run the output is one of the run's own messages, whatever the PATCHes name. */
  lemma {:induction false} OutputIsAlwaysOwn(s: State, events: seq<Event>, own: set<string>)
    requires IsCreated(s) && ChecksTell(s, events, own)
    ensures OutputsBelong(Run(s, events), own)
    ensures var row := Run(s, events).row; row.output.Some? ==> row.output.value in own
  {
    if events != [] { OutputIsAlwaysOwn(s, events[..|events| - 1], own); }
  }

  /** Answers are honest: an accepted terminal PATCH is shown the final row, with its status in
   *  it for good, an answer that shows an ended run shows its final row, and a refusal as
   *  finalized means that the run has ended. */
  lemma AnswersAreHonest(s: State, events: seq<Event>, more: seq<Event>, i: nat)
    requires IsCreated(s) && i < |Run(s, events).patchers| && Run(s, events).patchers[i].phase.Done?
    ensures var p, row := Run(s, events).patchers[i], Run(s, events + more).row;
      && (p.phase.answer.Accepted? && Terminal(p.body.status) ==>
            row == p.phase.answer.shown && row.status == p.body.status)
      && (p.phase.answer.Accepted? && Terminal(p.phase.answer.shown.status) ==> row == p.phase.answer.shown)
      && (p.phase.answer.Finalized? ==> Terminal(row.status))
  {
    RunKeeps(s, events);
    RunsAppend(s, events, more);
    RunKeeps(Run(s, events), more);
  }

  /** An ended run has exactly one PATCH that ended it, and the output and error that PATCH
   *  named are in the row for good. */
  lemma {:induction false} TheEndingPatchIsKept(s: State, events: seq<Event>, more: seq<Event>)
    requires IsCreated(s)
    ensures var t := Run(s, events);
      && (t.winner.Some? <==> Terminal(t.row.status))
      && (t.winner.Some? ==>
            && t.winner.value < |t.patchers|
            && var body, row := t.patchers[t.winner.value].body, Run(s, events + more).row;
               && row.status == body.status
               && (!body.output.Absent? ==> row.output == Resolve(None, body.output))
               && (!body.status.Completed? && !body.error.Absent? ==> row.error == Resolve(None, body.error)))
  {
    RunKeeps(s, events);
    RunsAppend(s, events, more);
    RunKeeps(Run(s, events), more);
  }

  // Two PATCHes read the same active run and complete it with an output each.
  function TwoCompletions(i: nat, one: Body, two: Body, now: int): seq<Event> {
    [Open(one), Check(i, true), Open(two), Check(i + 1, true), Write(i, now), Write(i + 1, now), ReadAgain(i + 1)]
  }

  lemma BothCheck(s: State, one: Body, two: Body)
    requires IsCreated(s) && one.output.Value? && two.output.Value?
    ensures Run(s, [Open(one), Check(0, true), Open(two)])
         == s.(patchers := [Patcher(one, Checked(s.row)), Patcher(two, Read(s.row))])
  {
    ThreeSteps(s, Open(one), Check(0, true), Open(two));
  }

  lemma BothWrite(s: State, one: Body, two: Body, now: int)
    requires !Terminal(s.row.status) && one.status.Completed? && two.output.Value?
    requires s.patchers == [Patcher(one, Checked(s.row)), Patcher(two, Read(s.row))]
    ensures var t := Run(s, [Check(1, true), Write(0, now), Write(1, now)]);
      t.patchers == [Patcher(one, Wrote), Patcher(two, Wrote)] && t.row == Patched(s.row, s.row, one, now)
  {
    ThreeSteps(s, Check(1, true), Write(0, now), Write(1, now));
  }

  /** Accepted does not mean kept: of two completions that race, the second is accepted as well
   *  and its output is not in the row. */
  lemma SecondCompletionIsAcceptedToo(s: State, one: Body, two: Body, now: int)
    requires IsCreated(s) && one.status.Completed? && two.status.Completed?
    requires one.output.Value? && two.output.Value?
    ensures var t := Run(s, TwoCompletions(0, one, two, now));
      && |t.patchers| == 2 && t.patchers[1] == Patcher(two, Done(Accepted(t.row)))
      && t.row.output == Some(one.output.text)
  {
    var first, second := [Open(one), Check(0, true), Open(two)], [Check(1, true), Write(0, now), Write(1, now)];
    var e := TwoCompletions(0, one, two, now);
    BothCheck(s, one, two);
    BothWrite(Run(s, first), one, two, now);
    RunsAppend(s, first, second);
    assert e[..6] == first + second && e[6] == ReadAgain(1);
  }

  lemma {:induction false} CompletedHasNoError(s: State, events: seq<Event>)
    requires IsCreated(s)
    ensures Run(s, events).row.status.Completed? ==> Run(s, events).row.error.None?
  {
    RunKeeps(s, events);
  }

  // ------------------------------------------------------ the output of a completed run

  predicate HasItsOutput(row: Row) { row.status.Completed? ==> row.output.Some? }

  predicate Sets(b: Body) { b.output.Value? && !Terminal(b.status) }

  predicate Clears(b: Body) { b.output.Null? && !Terminal(b.status) }

  predicate CompletesBare(b: Body) { b.output.Absent? && b.status.Completed? }

  // The bodies never do all three: set the output early, clear it, complete without naming it.
  ghost predicate Harmless(bodies: set<Body>) {
    || (forall b :: b in bodies ==> !Sets(b))
    || (forall b :: b in bodies ==> !Clears(b))
    || (forall b :: b in bodies ==> !CompletesBare(b))
  }

  ghost predicate UsesOnly(events: seq<Event>, bodies: set<Body>) {
    forall k :: 0 <= k < |events| && events[k].Open? ==> events[k].body in bodies
  }

  // The row holds an output as long as some PATCH under way relies on it.
  ghost predicate OutputInv(s: State, bodies: set<Body>) {
    && HasItsOutput(s.row)
    && (forall i :: 0 <= i < |s.patchers| ==> s.patchers[i].body in bodies)
    && ((forall b :: b in bodies ==> !Sets(b)) && !Terminal(s.row.status) ==> s.row.output.None?)
    && (forall i :: 0 <= i < |s.patchers| ==> Relies(s.row, bodies, s.patchers[i]))
  }

  ghost predicate Relies(row: Row, bodies: set<Body>, p: Patcher) {
    && (p.phase.Read? || p.phase.Checked? ==>
          && ((forall b :: b in bodies ==> !Sets(b)) ==> p.phase.seen.output.None?)
          && ((forall b :: b in bodies ==> !Clears(b)) && p.phase.seen.output.Some? ==>
                row.output.Some? || Terminal(row.status)))
    && (p.phase.Checked? && p.body.status.Completed? ==> Resolve(p.phase.seen.output, p.body.output).Some?)
  }

  lemma OutputStepKeeps(s: State, e: Event, bodies: set<Body>)
    requires OutputInv(s, bodies) && Harmless(bodies) && (e.Open? ==> e.body in bodies)
    ensures OutputInv(Step(s, e), bodies)
  {
  }

  lemma {:induction false} HarmlessBodiesKeepTheOutput(s: State, events: seq<Event>, bodies: set<Body>)
    requires IsCreated(s) && Harmless(bodies) && UsesOnly(events, bodies)
    ensures OutputInv(Run(s, events), bodies)
  {
    if events != [] {
      HarmlessBodiesKeepTheOutput(s, events[..|events| - 1], bodies);
      OutputStepKeeps(Run(s, events[..|events| - 1]), events[|events| - 1], bodies);
    }
  }

  lemma ThreeSteps(s: State, a: Event, b: Event, c: Event)
    ensures Run(s, [a, b, c]) == Step(Step(Step(s, a), b), c)
  {
    assert [a, b, c][..2] == [a, b] && [a, b][..1] == [a] && [a][..0] == [];
    assert Run(s, [a]) == Step(s, a);
    assert Run(s, [a, b]) == Step(Step(s, a), b);
  }

  function PatchEvents(i: nat, body: Body, now: int): seq<Event> {
    [Open(body), Check(i, true), Write(i, now)]
  }

  // One early PATCH, with nothing in between.
  lemma PatchGoesThrough(s: State, body: Body, now: int)
    requires !Terminal(s.row.status) && !Terminal(body.status)
    ensures var t := Run(s, PatchEvents(|s.patchers|, body, now));
      && t.row == Patched(s.row, s.row, body, now)
      && |t.patchers| == |s.patchers| + 1
      && t.patchers[..|s.patchers|] == s.patchers
  {
    var i := |s.patchers|;
    ThreeSteps(s, Open(body), Check(i, true), Write(i, now));
    var s1 := Step(s, Open(body));
    assert s1.patchers[i] == Patcher(body, Read(s.row));
    var s2 := Step(s1, Check(i, true));
    assert s2.patchers[i] == Patcher(body, Checked(s.row));
  }

  // A completing PATCH that leaves its output out writes after the output was cleared.
  lemma BareCompletionLosesTheOutput(s: State, clear: Body, complete: Body)
    requires !Terminal(s.row.status) && s.row.output.Some? && Clears(clear) && CompletesBare(complete)
    ensures var i := |s.patchers|;
      !HasItsOutput(Run(s, [Open(complete), Check(i, true)] + PatchEvents(i + 1, clear, 0) + [Write(i, 0)]).row)
  {
    var i := |s.patchers|;
    var s1 := Step(s, Open(complete));
    var s2 := Step(s1, Check(i, true));
    assert s1.patchers[i] == Patcher(complete, Read(s.row));
    assert s2.patchers[i] == Patcher(complete, Checked(s.row));
    var open, patch := [Open(complete), Check(i, true)], PatchEvents(i + 1, clear, 0);
    assert open[..1] == [Open(complete)] && open[..1][..0] == [];
    assert Run(s, open[..1]) == s1;
    assert Run(s, open) == s2;
    RunsAppend(s, open, patch);
    PatchGoesThrough(s2, clear, 0);
    var s3 := Run(s, open + patch);
    assert s3.patchers[i] == s3.patchers[..i + 1][i];
    var all := open + patch + [Write(i, 0)];
    assert all[..|all| - 1] == open + patch;
  }

  // Bodies that do all three have a run that ends completed without an output.
  lemma HarmfulBodiesLoseIt(s: State, bodies: set<Body>) returns (events: seq<Event>)
    requires IsCreated(s) && !Harmless(bodies)
    ensures UsesOnly(events, bodies) && !HasItsOutput(Run(s, events).row)
  {
    var early :| early in bodies && Sets(early);
    var clear :| clear in bodies && Clears(clear);
    var complete :| complete in bodies && CompletesBare(complete);
    var first := PatchEvents(0, early, 0);
    var rest := [Open(complete), Check(1, true)] + PatchEvents(2, clear, 0) + [Write(1, 0)];
    PatchGoesThrough(s, early, 0);
    BareCompletionLosesTheOutput(Run(s, first), clear, complete);
    RunsAppend(s, first, rest);
    events := first + rest;
  }

  /** That a completed run has an output message holds in every run made of the given bodies
   *  exactly when they do not do all three: set the output early, clear it by an explicit
   *  null, and complete without naming it. */
  lemma CompletedHasItsOutputExactlyWhenHarmless(s: State, bodies: set<Body>)
    requires IsCreated(s)
    ensures (forall events :: UsesOnly(events, bodies) ==> HasItsOutput(Run(s, events).row)) <==> Harmless(bodies)
  {
    if Harmless(bodies) {
      forall events | UsesOnly(events, bodies)
        ensures HasItsOutput(Run(s, events).row)
      {
        HarmlessBodiesKeepTheOutput(s, events, bodies);
      }
    } else {
      var events := HarmfulBodiesLoseIt(s, bodies);
    }
  }

  // ------------------------------------------------------------------ the table

  class AgentRunsTable {
    var row: Row

    constructor (row: Row)
      ensures this.row == row
    {
      this.row := row;
    }

    /** The guarded UPDATE. */
    method Update(seen: Row, body: Body, now: int)
      modifies this
      ensures row == if Terminal(old(row).status) then old(row) else Patched(old(row), seen, body, now)
    {
      if !Terminal(row.status) {
        var patch := row.(status := body.status, updatedAt := now);
        if body.status.Running? || body.status.WaitingInput? || Terminal(body.status) {
          patch := patch.(startedAt := Some(if seen.startedAt.Some? then seen.startedAt.value else now));
        }
        if Terminal(body.status) { patch := patch.(completedAt := Some(now)); }
        if !body.output.Absent? { patch := patch.(output := Resolve(None, body.output)); }
        if body.status.Completed? { patch := patch.(error := None); }
        else if !body.error.Absent? { patch := patch.(error := Resolve(None, body.error)); }
        row := patch;
      }
    }

    /** One PATCH with nothing in between: it is accepted exactly when the run is active, its
     *  output message, if it names one, belongs to the run, and a completion has one. */
    method Patch(body: Body, belongs: bool, now: int) returns (answer: Answer)
      modifies this
      ensures answer.Accepted? <==>
        && !Terminal(old(row).status)
        && (body.output.Value? ==> belongs)
        && (body.status.Completed? ==> Resolve(old(row).output, body.output).Some?)
      ensures answer.Accepted? ==>
        answer.shown == row && row == Patched(old(row), old(row), body, now) && row.status == body.status
      ensures !answer.Accepted? ==> row == old(row)
    {
      var seen := row;
      if Terminal(seen.status) { return Finalized; }
      if body.output.Value? && !belongs { return InvalidOutput; }
      var nextOutput := if body.output.Absent? then seen.output else Resolve(None, body.output);
      if body.status.Completed? && nextOutput.None? { return MissingOutput; }
      Update(seen, body, now);
      if row.status != body.status && Terminal(row.status) { return Finalized; }
      return Accepted(row);
    }
  }
}
