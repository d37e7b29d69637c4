/** Task numbers of one channel: callers read the largest number and insert the next one,
 *  under a unique index, and try again on a conflict, five times in all. */
module TaskNumbers {
  const ATTEMPTS: nat := 5

  datatype Task = Task(number: int, owner: nat)

  // What the insert runs into besides a taken number: nothing, another constraint, or an
  // error of another kind.
  datatype Fault = NoFault | OtherConstraint | OtherError

  /** A caller's place in its loop; `attempt` counts from 0.  `base` is the number of tasks
   *  at its arrival and `conflicts` the number of its attempts that met a taken number. */
  datatype Phase =
    | Reading(attempt: nat)
    | Holding(attempt: nat, number: int)
    | Inserted(number: int)
    | Threw

  datatype Caller = Caller(base: nat, conflicts: nat, phase: Phase)

  datatype State = State(tasks: seq<Task>, callers: seq<Caller>)

  datatype Event = Arrive | ReadMax(i: nat) | Insert(i: nat, fault: Fault)

  // ------------------------------------------------------------------ the steps

  function MaxNumber(tasks: seq<Task>): int {
    if tasks == [] then 0
    else
      var rest, last := MaxNumber(tasks[..|tasks| - 1]), tasks[|tasks| - 1].number;
      if last > rest then last else rest
  }

  predicate Taken(tasks: seq<Task>, number: int) {
    exists k :: 0 <= k < |tasks| && tasks[k].number == number
  }

  // After a failed insert: the loop goes on after a constraint error, but for the last time.
  function Retry(attempt: nat): Phase {
    if attempt < ATTEMPTS - 1 then Reading(attempt + 1) else Threw
  }

  // An event that is not possible in a state changes nothing.
  function Step(s: State, e: Event): State {
    match e
    case Arrive => s.(callers := s.callers + [Caller(|s.tasks|, 0, Reading(0))])
    case ReadMax(i) =>
      if i < |s.callers| && s.callers[i].phase.Reading? then
        var c := s.callers[i];
        s.(callers := s.callers[i := c.(phase := Holding(c.phase.attempt, MaxNumber(s.tasks) + 1))])
      else s
    case Insert(i, fault) =>
      if i < |s.callers| && s.callers[i].phase.Holding? then
        var c := s.callers[i];
        var number := c.phase.number;
        if fault.OtherError? then s.(callers := s.callers[i := c.(phase := Threw)])
        else if fault.OtherConstraint? then s.(callers := s.callers[i := c.(phase := Retry(c.phase.attempt))])
        else if Taken(s.tasks, number) then
          s.(callers := s.callers[i := Caller(c.base, c.conflicts + 1, Retry(c.phase.attempt))])
        else State(s.tasks + [Task(number, i)], s.callers[i := c.(phase := Inserted(number))])
      else s
  }

  function Run(events: seq<Event>): State {
    if events == [] then State([], []) else Step(Run(events[..|events| - 1]), events[|events| - 1])
  }

  // ------------------------------------------------------------- the invariant

  // The k-th task inserted has number k + 1.
  ghost predicate Dense(tasks: seq<Task>) {
    forall k :: 0 <= k < |tasks| ==> tasks[k].number == k + 1
  }

  predicate CallerFits(s: State, i: nat)
    requires i < |s.callers|
  {
    var c := s.callers[i];
    match c.phase
    case Reading(attempt) => attempt < ATTEMPTS && c.base + c.conflicts <= |s.tasks|
    case Holding(attempt, number) => attempt < ATTEMPTS && c.base + c.conflicts < number <= |s.tasks| + 1
    case Inserted(number) => 1 <= number <= |s.tasks| && s.tasks[number - 1].owner == i
    case Threw => c.base + c.conflicts <= |s.tasks|
  }

  predicate TaskFits(s: State, k: nat)
    requires k < |s.tasks|
  {
    s.tasks[k].owner < |s.callers| && s.callers[s.tasks[k].owner].phase == Inserted(k + 1)
  }

  ghost predicate Inv(s: State) {
    && Dense(s.tasks)
    && (forall i :: 0 <= i < |s.callers| ==> CallerFits(s, i))
    && (forall k :: 0 <= k < |s.tasks| ==> TaskFits(s, k))
  }

  lemma {:induction false} MaxOfDense(tasks: seq<Task>)
    requires Dense(tasks)
    ensures MaxNumber(tasks) == |tasks|
  {
    if tasks != [] { MaxOfDense(tasks[..|tasks| - 1]); }
  }

  lemma TakenInDense(tasks: seq<Task>, number: int)
    requires Dense(tasks)
    ensures Taken(tasks, number) <==> 1 <= number <= |tasks|
  {
    if 1 <= number <= |tasks| { assert tasks[number - 1].number == number; }
  }

  lemma ReadKeeps(s: State, i: nat)
    requires Inv(s)
    ensures Inv(Step(s, ReadMax(i)))
  {
    MaxOfDense(s.tasks);
    var t := Step(s, ReadMax(i));
    forall j | 0 <= j < |t.callers|
      ensures CallerFits(t, j)
    {
      assert CallerFits(s, j);
    }
    assert forall k :: 0 <= k < |t.tasks| ==> TaskFits(s, k) ==> TaskFits(t, k);
  }

  lemma InsertKeeps(s: State, i: nat, fault: Fault)
    requires Inv(s)
    ensures Inv(Step(s, Insert(i, fault)))
  {
    if i < |s.callers| && s.callers[i].phase.Holding? {
      TakenInDense(s.tasks, s.callers[i].phase.number);
      var t := Step(s, Insert(i, fault));
      assert CallerFits(s, i);
      forall k | 0 <= k < |t.tasks|
        ensures TaskFits(t, k)
      {
        assert k < |s.tasks| ==> TaskFits(s, k);
      }
      forall j | 0 <= j < |t.callers|
        ensures CallerFits(t, j)
      {
        assert CallerFits(s, j);
      }
    }
  }

  lemma StepKeeps(s: State, e: Event)
    requires Inv(s)
    ensures Inv(Step(s, e))
  {
    match e
    case Arrive =>
      var t := Step(s, e);
      assert forall k :: 0 <= k < |t.tasks| ==> TaskFits(s, k) ==> TaskFits(t, k);
      assert forall j :: 0 <= j < |s.callers| ==> CallerFits(s, j) ==> CallerFits(t, j);
    case ReadMax(i) => ReadKeeps(s, i);
    case Insert(i, fault) => InsertKeeps(s, i, fault);
  }

  lemma {:induction false} RunKeeps(events: seq<Event>)
    ensures Inv(Run(events))
  {
    if events != [] {
      RunKeeps(events[..|events| - 1]);
      StepKeeps(Run(events[..|events| - 1]), events[|events| - 1]);
    }
  }

  // ------------------------------------------------------------------ theorems

  /** A channel's task numbers are exactly 1 to n: the k-th task inserted has number k + 1. */
  lemma NumbersAreExactlyOneToN(events: seq<Event>, number: int)
    ensures Taken(Run(events).tasks, number) <==> 1 <= number <= |Run(events).tasks|
    ensures forall k :: 0 <= k < |Run(events).tasks| ==> Run(events).tasks[k].number == k + 1
  {
    RunKeeps(events);
    TakenInDense(Run(events).tasks, number);
  }

  // Each number belongs to one caller, and each caller gets at most one.
  lemma NumbersAreOwned(events: seq<Event>, i: nat, j: nat)
    requires i < j < |Run(events).callers|
    requires Run(events).callers[i].phase.Inserted? && Run(events).callers[j].phase.Inserted?
    ensures Run(events).callers[i].phase.number != Run(events).callers[j].phase.number
  {
    RunKeeps(events);
    assert CallerFits(Run(events), i) && CallerFits(Run(events), j);
  }

  // The event is not a step of caller `i`.
  predicate IsOthers(e: Event, i: nat) { e.Arrive? || e.i != i }

  lemma {:induction false} OthersLeaveACallerAlone(events: seq<Event>, more: seq<Event>, i: nat)
    requires i < |Run(events).callers| && forall k :: 0 <= k < |more| ==> IsOthers(more[k], i)
    ensures var s, t := Run(events), Run(events + more);
      && i < |t.callers| && t.callers[i] == s.callers[i] && s.tasks <= t.tasks
    decreases |more|
  {
    if more == [] {
      assert events + more == events;
    } else {
      assert (events + more)[..|events + more| - 1] == events + more[..|more| - 1];
      OthersLeaveACallerAlone(events, more[..|more| - 1], i);
    }
  }

  lemma RunSnoc(events: seq<Event>, e: Event)
    ensures Run(events + [e]) == Step(Run(events), e)
  {
    assert (events + [e])[..|events|] == events;
  }

  /** How an attempt ends, in every run: whatever other callers do between the read and the
   *  insert, it takes the number after the last task if nobody inserted one meanwhile and no
   *  fault comes up.  Otherwise the next attempt begins, if this was not the fifth, except
   *  after an error that is no constraint's, which is thrown at once. */
  lemma AttemptEndsExactlyAs(events: seq<Event>, more: seq<Event>, i: nat, fault: Fault)
    requires i < |Run(events).callers| && Run(events).callers[i].phase.Reading?
    requires forall k :: 0 <= k < |more| ==> IsOthers(more[k], i)
    ensures var s, u := Run(events), Run(events + [ReadMax(i)] + more);
      var t, a := Run(events + [ReadMax(i)] + more + [Insert(i, fault)]), s.callers[i].phase.attempt;
      && i < |t.callers| && a < 5
      && (t.callers[i].phase.Inserted? <==> fault.NoFault? && |u.tasks| == |s.tasks|)
      && (t.callers[i].phase.Inserted? ==>
            t.tasks == s.tasks + [Task(|s.tasks| + 1, i)] && t.callers[i].phase.number == |s.tasks| + 1)
      && (!t.callers[i].phase.Inserted? ==>
            && t.tasks == u.tasks
            && t.callers[i].phase == (if fault.OtherError? || a == 4 then Threw else Reading(a + 1)))
      && t.callers[i].conflicts
         == s.callers[i].conflicts + (if fault.NoFault? && |u.tasks| > |s.tasks| then 1 else 0)
  {
    var s := Run(events);
    RunKeeps(events);
    MaxOfDense(s.tasks);
    assert CallerFits(s, i);
    var read := events + [ReadMax(i)];
    RunSnoc(events, ReadMax(i));
    OthersLeaveACallerAlone(read, more, i);
    RunKeeps(read + more);
    TakenInDense(Run(read + more).tasks, |s.tasks| + 1);
    RunSnoc(read + more, Insert(i, fault));
  }

  // A request comes in as a caller at its first attempt.
  lemma ArrivalsBegin(events: seq<Event>)
    ensures var s, t := Run(events), Run(events + [Arrive]);
      t.tasks == s.tasks && t.callers == s.callers + [Caller(|s.tasks|, 0, Reading(0))]
  {
    RunSnoc(events, Arrive);
  }

  /** A caller all of whose five attempts met a taken number was overtaken: at least five
   *  tasks were inserted since it arrived, none of them its own. */
  lemma GivingUpMeansFiveOthersWon(events: seq<Event>, i: nat)
    requires i < |Run(events).callers|
    requires var c := Run(events).callers[i]; c.phase.Threw? && c.conflicts == ATTEMPTS
    ensures var s := Run(events); var c := s.callers[i];
      && |s.tasks| >= c.base + ATTEMPTS
      && forall k :: c.base <= k < |s.tasks| ==> s.tasks[k].owner != i
  {
    RunKeeps(events);
    var s := Run(events);
    assert CallerFits(s, i);
    forall k | 0 <= k < |s.tasks|
      ensures s.tasks[k].owner != i
    {
      assert TaskFits(s, k);
    }
  }

  // ------------------------------------------------------------------- the table

  datatype Answer = Created(number: int) | Thrown | Conflict

  class TasksTable {
    var tasks: seq<Task>

    constructor ()
      ensures tasks == []
    {
      tasks := [];
    }

    method ReadMaxNumber() returns (max: int)
      ensures max == MaxNumber(tasks)
    {
      max := 0;
      for k := 0 to |tasks|
        invariant max == MaxNumber(tasks[..k])
      {
        assert tasks[..k + 1][..k] == tasks[..k];
        if tasks[k].number > max { max := tasks[k].number; }
      }
      assert tasks[..|tasks|] == tasks;
    }

    // Inserts by other callers, each with the number that is next.
    method Others(owners: seq<nat>)
      requires Dense(tasks)
      modifies this
      ensures Dense(tasks) && |tasks| == |old(tasks)| + |owners| && old(tasks) <= tasks
    {
      for k := 0 to |owners|
        invariant Dense(tasks) && |tasks| == |old(tasks)| + k && old(tasks) <= tasks
      {
        tasks := tasks + [Task(|tasks| + 1, owners[k])];
      }
    }

    /** The allocation loop of one caller, when `others[a]` callers insert between its read
     *  and its insert on attempt `a`.  It succeeds exactly when some attempt is left alone,
     *  and then its task is the last one; otherwise it throws.  It never reaches the answer
     *  that the route keeps for a loop that ran out. */
    method Allocate(owner: nat, others: seq<seq<nat>>) returns (answer: Answer)
      requires Dense(tasks) && |others| == ATTEMPTS
      modifies this
      ensures Dense(tasks) && old(tasks) <= tasks
      ensures answer.Created? <==> exists a :: 0 <= a < ATTEMPTS && others[a] == []
      ensures answer.Created? ==> old(tasks) < tasks && tasks[|tasks| - 1] == Task(answer.number, owner)
      ensures !answer.Created? ==> answer.Thrown? && |tasks| >= |old(tasks)| + ATTEMPTS
    {
      for attempt := 0 to ATTEMPTS
        invariant Dense(tasks) && old(tasks) <= tasks && |tasks| >= |old(tasks)| + attempt
        invariant forall a :: 0 <= a < attempt ==> others[a] != []
        invariant attempt < ATTEMPTS
      {
        var max := ReadMaxNumber();
        MaxOfDense(tasks);
        var number := max + 1;
        Others(others[attempt]);
        TakenInDense(tasks, number);
        if !Taken(tasks, number) {
          assert others[attempt] == [];
          tasks := tasks + [Task(number, owner)];
          return Created(number);
        }
        if !(attempt < ATTEMPTS - 1) { return Thrown; }
      }
      return Conflict;
    }
  }
}
