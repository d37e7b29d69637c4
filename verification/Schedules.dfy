/** The scheduled jobs of a cloud agent and the one alarm that wakes it for them.
 *
 * Schedule changes and the alarm's pop run under a lock, in two stretches: the state
 * write and the alarm refresh.  History, todo and terminal writes do not take the lock
 * and may fall between the two.
 */
module Schedules {
  import opened Wrappers

  const MAX_SCHEDULES: nat := 20

  datatype Job = Job(id: nat, fireAt: int, prompt: string)

  // The agent's persisted state; `docs` stands for history, todo list and terminal ring.
  datatype AgentState = AgentState(schedules: seq<Job>, docs: seq<string>)

  // The tools' updaters, applied to the schedules current at write time.
  datatype Updater = ScheduleSelf(fireAt: int, prompt: string) | CancelSchedule(id: nat)

  datatype Lock = Free | Refreshing

  // The alarm handler: waiting for the lock since `now`, or running what it popped.
  datatype Handler = NoHandler | Waiting(now: int) | Running(due: seq<Job>, now: int)

  /** `created`, `ran`, `removed` are histories; a job that ran is kept with the handler's
   *  time.  Job ids are numbered in creation order. */
  datatype State = State(
    agent: AgentState,
    alarm: Option<int>,
    lock: Lock,
    handler: Handler,
    created: seq<Job>,
    ran: seq<(Job, int)>,
    removed: seq<Job>)

  const Init := State(AgentState([], []), None, Free, NoHandler, [], [], [])

  datatype Event =
    | UpdateSchedules(u: Updater)
    | RefreshAlarm
    | AlarmFires(now: int)
    | PopDue
    | RunNext
    | HandlerEnds
    | WriteDocs(docs: seq<string>)

  // ------------------------------------------------------------------ the steps

  function Due(jobs: seq<Job>, now: int): seq<Job> {
    if jobs == [] then []
    else
      var j := jobs[|jobs| - 1];
      Due(jobs[..|jobs| - 1], now) + (if j.fireAt <= now then [j] else [])
  }

  function Remaining(jobs: seq<Job>, now: int): seq<Job> {
    if jobs == [] then []
    else
      var j := jobs[|jobs| - 1];
      Remaining(jobs[..|jobs| - 1], now) + (if j.fireAt > now then [j] else [])
  }

  function WithId(jobs: seq<Job>, id: nat, same: bool): seq<Job> {
    if jobs == [] then []
    else
      var j := jobs[|jobs| - 1];
      WithId(jobs[..|jobs| - 1], id, same) + (if (j.id == id) == same then [j] else [])
  }

  // The earliest fire time, if there is a job.
  function Earliest(jobs: seq<Job>): Option<int> {
    if jobs == [] then None
    else
      var j, rest := jobs[|jobs| - 1], Earliest(jobs[..|jobs| - 1]);
      if rest.Some? && rest.value <= j.fireAt then rest else Some(j.fireAt)
  }

  function Update(s: State, u: Updater): State {
    var jobs := s.agent.schedules;
    match u
    case ScheduleSelf(fireAt, prompt) =>
      if |jobs| >= MAX_SCHEDULES then s
      else
        var j := Job(|s.created|, fireAt, prompt);
        s.(agent := s.agent.(schedules := jobs + [j]), created := s.created + [j])
    case CancelSchedule(id) =>
      s.(agent := s.agent.(schedules := WithId(jobs, id, false)),
         removed := s.removed + WithId(jobs, id, true))
  }

  // An event that is not possible in a state changes nothing.
  function Step(s: State, e: Event): State {
    match e
    case UpdateSchedules(u) => if s.lock.Free? then Update(s, u).(lock := Refreshing) else s
    case RefreshAlarm =>
      if s.lock.Refreshing? then s.(alarm := Earliest(s.agent.schedules), lock := Free) else s
    case AlarmFires(now) =>
      if s.handler.NoHandler? && s.alarm.Some? && s.alarm.value <= now
      then s.(alarm := None, handler := Waiting(now)) else s
    case PopDue =>
      if s.lock.Free? && s.handler.Waiting? then
        var now := s.handler.now;
        s.(agent := s.agent.(schedules := Remaining(s.agent.schedules, now)),
           lock := Refreshing, handler := Running(Due(s.agent.schedules, now), now))
      else s
    case RunNext =>
      if s.handler.Running? && s.handler.due != [] then
        s.(handler := s.handler.(due := s.handler.due[1..]), ran := s.ran + [(s.handler.due[0], s.handler.now)])
      else s
    case HandlerEnds =>
      if s.handler.Running? && s.handler.due == [] && s.lock.Free? then s.(handler := NoHandler) else s
    case WriteDocs(docs) => s.(agent := s.agent.(docs := docs))
  }

  function Run(events: seq<Event>): State
    decreases |events|
  {
    if events == [] then Init else Step(Run(events[..|events| - 1]), events[|events| - 1])
  }

  // ------------------------------------------------------------- the invariant

  // What the handler holds and will run.
  function Held(s: State): seq<Job> { if s.handler.Running? then s.handler.due else [] }

  function RanJobs(ran: seq<(Job, int)>): seq<Job> { seq(|ran|, i requires 0 <= i < |ran| => ran[i].0) }

  // Where created jobs can be: stored, held by the handler, run, removed.
  function Places(s: State): multiset<Job> {
    multiset(s.agent.schedules) + multiset(Held(s)) + multiset(RanJobs(s.ran)) + multiset(s.removed)
  }

  ghost predicate AlarmAgrees(s: State) {
    s.lock.Free? && !s.handler.Waiting? ==> s.alarm == Earliest(s.agent.schedules)
  }

  ghost predicate Numbered(created: seq<Job>) {
    forall i :: 0 <= i < |created| ==> created[i].id == i
  }

  ghost predicate InTime(s: State) {
    && (s.handler.Running? ==> forall i :: 0 <= i < |s.handler.due| ==> s.handler.due[i].fireAt <= s.handler.now)
    && (forall i :: 0 <= i < |s.ran| ==> s.ran[i].0.fireAt <= s.ran[i].1)
  }

  ghost predicate Conserved(s: State) { Places(s) == multiset(s.created) }

  ghost predicate Inv(s: State) {
    Numbered(s.created) && Conserved(s) && AlarmAgrees(s) && InTime(s)
  }

  // ---------------------------------------------------------------- the proofs

  lemma LastOut(jobs: seq<Job>)
    requires jobs != []
    ensures multiset(jobs) == multiset(jobs[..|jobs| - 1]) + multiset{jobs[|jobs| - 1]}
  {
    assert jobs == jobs[..|jobs| - 1] + [jobs[|jobs| - 1]];
  }

  lemma LastIn(jobs: seq<Job>, j: Job, takes: bool)
    ensures multiset(jobs + (if takes then [j] else [])) == multiset(jobs) + (if takes then multiset{j} else multiset{})
  {
  }

  lemma {:induction false} DueAndRemainingSplit(jobs: seq<Job>, now: int)
    ensures multiset(Due(jobs, now)) + multiset(Remaining(jobs, now)) == multiset(jobs)
  {
    if jobs != [] {
      var front, j := jobs[..|jobs| - 1], jobs[|jobs| - 1];
      DueAndRemainingSplit(front, now);
      LastOut(jobs);
      LastIn(Due(front, now), j, j.fireAt <= now);
      LastIn(Remaining(front, now), j, j.fireAt > now);
    }
  }

  lemma {:induction false} DueAndRemainingTimes(jobs: seq<Job>, now: int)
    ensures forall i :: 0 <= i < |Due(jobs, now)| ==> Due(jobs, now)[i].fireAt <= now
    ensures forall i :: 0 <= i < |Remaining(jobs, now)| ==> Remaining(jobs, now)[i].fireAt > now
  {
    if jobs != [] { DueAndRemainingTimes(jobs[..|jobs| - 1], now); }
  }

  lemma {:induction false} DueAndRemainingMembers(jobs: seq<Job>, now: int, job: Job)
    ensures job in Due(jobs, now) <==> job in jobs && job.fireAt <= now
    ensures job in Remaining(jobs, now) <==> job in jobs && job.fireAt > now
  {
    if jobs != [] {
      DueAndRemainingMembers(jobs[..|jobs| - 1], now, job);
      assert jobs == jobs[..|jobs| - 1] + [jobs[|jobs| - 1]];
    }
  }

  lemma {:induction false} WithIdSplits(jobs: seq<Job>, id: nat)
    ensures multiset(WithId(jobs, id, true)) + multiset(WithId(jobs, id, false)) == multiset(jobs)
  {
    if jobs != [] {
      var front, j := jobs[..|jobs| - 1], jobs[|jobs| - 1];
      WithIdSplits(front, id);
      LastOut(jobs);
      LastIn(WithId(front, id, true), j, j.id == id);
      LastIn(WithId(front, id, false), j, j.id != id);
    }
  }

  /** `r` is the wanted jobs of `jobs`, each as often as there and in the order they have there:
   *  `at` are their positions. */
  ghost predicate IsAt(jobs: seq<Job>, r: seq<Job>, at: seq<nat>, wanted: Job -> bool) {
    && |at| == |r|
    && (forall k :: 0 <= k < |at| ==> at[k] < |jobs| && jobs[at[k]] == r[k])
    && (forall k, l :: 0 <= k < l < |at| ==> at[k] < at[l])
    && (forall i :: 0 <= i < |jobs| ==> (i in at <==> wanted(jobs[i])))
  }

  ghost predicate Selects(jobs: seq<Job>, r: seq<Job>, wanted: Job -> bool) {
    exists at: seq<nat> :: IsAt(jobs, r, at, wanted)
  }

  lemma SelectsNone(wanted: Job -> bool)
    ensures Selects([], [], wanted)
  {
    assert IsAt([], [], [], wanted);
  }

  lemma SelectsSnoc(jobs: seq<Job>, r: seq<Job>, wanted: Job -> bool)
    requires jobs != [] && Selects(jobs[..|jobs| - 1], r, wanted)
    ensures Selects(jobs, if wanted(jobs[|jobs| - 1]) then r + [jobs[|jobs| - 1]] else r, wanted)
  {
    var front, j := jobs[..|jobs| - 1], jobs[|jobs| - 1];
    var at: seq<nat> :| IsAt(front, r, at, wanted);
    assert jobs == front + [j];
    if wanted(j) { TakesLast(front, r, at, wanted, j); } else { LeavesLast(front, r, at, wanted, j); }
  }

  lemma LeavesLast(jobs: seq<Job>, r: seq<Job>, at: seq<nat>, wanted: Job -> bool, j: Job)
    requires IsAt(jobs, r, at, wanted) && !wanted(j)
    ensures IsAt(jobs + [j], r, at, wanted)
  {
    var all := jobs + [j];
    assert |jobs| !in at;
    forall i | 0 <= i < |all| ensures i in at <==> wanted(all[i]) {
      if i < |jobs| { assert all[i] == jobs[i]; }
    }
  }

  lemma TakesLast(jobs: seq<Job>, r: seq<Job>, at: seq<nat>, wanted: Job -> bool, j: Job)
    requires IsAt(jobs, r, at, wanted) && wanted(j)
    ensures IsAt(jobs + [j], r + [j], at + [|jobs|], wanted)
  {
    var all, more := jobs + [j], at + [|jobs|];
    forall i | 0 <= i < |all| ensures i in more <==> wanted(all[i]) {
      if i < |jobs| {
        assert all[i] == jobs[i];
        assert i in more <==> i in at;
      } else {
        assert more[|at|] == i;
      }
    }
  }

  // The three lists are what they are meant to be, in the old order.
  lemma {:induction false} WithIdSelects(jobs: seq<Job>, id: nat)
    ensures Selects(jobs, WithId(jobs, id, true), (j: Job) => j.id == id)
    ensures Selects(jobs, WithId(jobs, id, false), (j: Job) => j.id != id)
  {
    if jobs == [] {
      SelectsNone((j: Job) => j.id == id);
      SelectsNone((j: Job) => j.id != id);
    } else {
      var front := jobs[..|jobs| - 1];
      WithIdSelects(front, id);
      SelectsSnoc(jobs, WithId(front, id, true), (j: Job) => j.id == id);
      SelectsSnoc(jobs, WithId(front, id, false), (j: Job) => j.id != id);
      assert WithId(front, id, true) + [] == WithId(front, id, true);
      assert WithId(front, id, false) + [] == WithId(front, id, false);
    }
  }

  lemma {:induction false} DueSelects(jobs: seq<Job>, now: int)
    ensures Selects(jobs, Due(jobs, now), (j: Job) => j.fireAt <= now)
    ensures Selects(jobs, Remaining(jobs, now), (j: Job) => j.fireAt > now)
  {
    if jobs == [] {
      SelectsNone((j: Job) => j.fireAt <= now);
      SelectsNone((j: Job) => j.fireAt > now);
    } else {
      var front := jobs[..|jobs| - 1];
      DueSelects(front, now);
      SelectsSnoc(jobs, Due(front, now), (j: Job) => j.fireAt <= now);
      SelectsSnoc(jobs, Remaining(front, now), (j: Job) => j.fireAt > now);
      assert Due(front, now) + [] == Due(front, now) && Remaining(front, now) + [] == Remaining(front, now);
    }
  }

  lemma {:induction false} EarliestIsTheMinimum(jobs: seq<Job>)
    ensures Earliest(jobs).None? <==> jobs == []
    ensures jobs != [] ==> exists j :: j in jobs && j.fireAt == Earliest(jobs).value
    ensures forall j :: j in jobs ==> Earliest(jobs).value <= j.fireAt
  {
    if jobs != [] {
      var front, last := jobs[..|jobs| - 1], jobs[|jobs| - 1];
      EarliestIsTheMinimum(front);
      assert jobs == front + [last] && last in jobs;
      if Earliest(jobs).value != last.fireAt {
        var j :| j in front && j.fireAt == Earliest(front).value;
        assert j in jobs;
      }
    }
  }

  lemma ScheduleConserves(s: State, t: State, j: Job)
    requires Conserved(s)
    requires t.agent.schedules == s.agent.schedules + [j] && t.created == s.created + [j]
    requires t.handler == s.handler && t.ran == s.ran && t.removed == s.removed
    ensures Conserved(t)
  {
    assert multiset(t.agent.schedules) == multiset(s.agent.schedules) + multiset{j};
    assert multiset(t.created) == multiset(s.created) + multiset{j};
  }

  lemma ScheduleKeeps(s: State, fireAt: int, prompt: string)
    requires Inv(s)
    ensures Inv(Update(s, ScheduleSelf(fireAt, prompt)).(lock := Refreshing))
  {
    var t := Update(s, ScheduleSelf(fireAt, prompt)).(lock := Refreshing);
    if |s.agent.schedules| < MAX_SCHEDULES {
      ScheduleConserves(s, t, Job(|s.created|, fireAt, prompt));
    } else {
      assert Places(t) == Places(s);
    }
  }

  lemma CancelConserves(s: State, t: State, id: nat)
    requires Conserved(s) && t.agent.schedules == WithId(s.agent.schedules, id, false)
    requires t.removed == s.removed + WithId(s.agent.schedules, id, true)
    requires t.handler == s.handler && t.ran == s.ran && t.created == s.created
    ensures Conserved(t)
  {
    WithIdSplits(s.agent.schedules, id);
    assert multiset(t.removed) == multiset(s.removed) + multiset(WithId(s.agent.schedules, id, true));
    assert Places(t) == Places(s);
  }

  lemma CancelKeeps(s: State, id: nat)
    requires Inv(s)
    ensures Inv(Update(s, CancelSchedule(id)).(lock := Refreshing))
  {
    CancelConserves(s, Update(s, CancelSchedule(id)).(lock := Refreshing), id);
  }

  lemma UpdateKeeps(s: State, u: Updater)
    requires Inv(s)
    ensures Inv(Update(s, u).(lock := Refreshing))
  {
    match u
    case ScheduleSelf(fireAt, prompt) => ScheduleKeeps(s, fireAt, prompt);
    case CancelSchedule(id) => CancelKeeps(s, id);
  }

  lemma PopConserves(s: State, t: State, now: int)
    requires Conserved(s) && Held(s) == []
    requires t.agent.schedules == Remaining(s.agent.schedules, now)
    requires Held(t) == Due(s.agent.schedules, now)
    requires t.created == s.created && t.ran == s.ran && t.removed == s.removed
    ensures Conserved(t)
  {
    DueAndRemainingSplit(s.agent.schedules, now);
    assert Places(t) == Places(s);
  }

  lemma PopKeeps(s: State)
    requires Inv(s) && s.lock.Free? && s.handler.Waiting?
    ensures Inv(Step(s, PopDue))
  {
    DueAndRemainingTimes(s.agent.schedules, s.handler.now);
    PopConserves(s, Step(s, PopDue), s.handler.now);
  }

  lemma RunNextConserves(s: State, t: State)
    requires Conserved(s) && Held(s) != [] && Held(t) == Held(s)[1..]
    requires RanJobs(t.ran) == RanJobs(s.ran) + [Held(s)[0]]
    requires t.agent == s.agent && t.removed == s.removed && t.created == s.created
    ensures Conserved(t)
  {
    var due := Held(s);
    assert due == [due[0]] + due[1..];
    assert multiset(due) == multiset{due[0]} + multiset(due[1..]);
    assert Places(t) == Places(s);
  }

  lemma RunNextKeeps(s: State)
    requires Inv(s) && s.handler.Running? && s.handler.due != []
    ensures Inv(Step(s, RunNext))
  {
    var t := Step(s, RunNext);
    assert RanJobs(t.ran) == RanJobs(s.ran) + [s.handler.due[0]];
    RunNextConserves(s, t);
  }

  // A step that moves no job.
  lemma FrameKeeps(s: State, t: State)
    requires Inv(s) && AlarmAgrees(t) && InTime(t)
    requires t.agent.schedules == s.agent.schedules && Held(t) == Held(s)
    requires t.ran == s.ran && t.removed == s.removed && t.created == s.created
    ensures Inv(t)
  {
    assert Places(t) == Places(s);
  }

  lemma StepKeeps(s: State, e: Event)
    requires Inv(s)
    ensures Inv(Step(s, e))
  {
    match e
    case UpdateSchedules(u) => if s.lock.Free? { UpdateKeeps(s, u); }
    case PopDue => if s.lock.Free? && s.handler.Waiting? { PopKeeps(s); }
    case RunNext => if s.handler.Running? && s.handler.due != [] { RunNextKeeps(s); }
    case _ => FrameKeeps(s, Step(s, e));
  }

  lemma {:induction false} RunKeeps(events: seq<Event>)
    ensures Inv(Run(events))
    decreases |events|
  {
    if events != [] {
      RunKeeps(events[..|events| - 1]);
      StepKeeps(Run(events[..|events| - 1]), events[|events| - 1]);
    }
  }

  // ------------------------------------------------------------------ theorems

  /** No job is lost or run twice: every job ever created is in exactly one place, once,
   *  whatever history, todo and terminal writes come in between. */
  lemma JobsAreConserved(events: seq<Event>, job: Job)
    ensures var s := Run(events); Places(s)[job] == if job in s.created then 1 else 0
  {
    RunKeeps(events);
    var s := Run(events);
    DistinctOnce(s.created, job);
  }

  lemma {:induction false} DistinctOnce(jobs: seq<Job>, job: Job)
    requires forall i :: 0 <= i < |jobs| ==> jobs[i].id == i
    ensures multiset(jobs)[job] == if job in jobs then 1 else 0
  {
    if jobs != [] {
      var front, last := jobs[..|jobs| - 1], jobs[|jobs| - 1];
      DistinctOnce(front, job);
      assert jobs == front + [last];
      assert last !in front;
    }
  }

  lemma {:induction false} PartsAreNotLonger(jobs: seq<Job>, id: nat, now: int)
    ensures |WithId(jobs, id, false)| <= |jobs| && |Remaining(jobs, now)| <= |jobs|
  {
    if jobs != [] { PartsAreNotLonger(jobs[..|jobs| - 1], id, now); }
  }

  // However tool calls interleave, an agent never has more than the allowed number of jobs.
  lemma {:induction false} NeverOverTheCap(events: seq<Event>)
    ensures |Run(events).agent.schedules| <= MAX_SCHEDULES
    decreases |events|
  {
    if events != [] {
      var s, e := Run(events[..|events| - 1]), events[|events| - 1];
      NeverOverTheCap(events[..|events| - 1]);
      if e.UpdateSchedules? && e.u.CancelSchedule? { PartsAreNotLonger(s.agent.schedules, e.u.id, 0); }
      if e.PopDue? && s.handler.Waiting? { PartsAreNotLonger(s.agent.schedules, 0, s.handler.now); }
    }
  }

  // No job is handed to an invocation before its time.
  lemma NothingRunsEarly(events: seq<Event>, i: nat)
    requires i < |Run(events).ran|
    ensures Run(events).ran[i].0.fireAt <= Run(events).ran[i].1
  {
    RunKeeps(events);
  }

  /** Whenever no locked section is open and no alarm is waiting for the lock, the alarm is
   *  set to the earliest stored job, and to nothing if there is none. */
  lemma AlarmIsTheEarliest(events: seq<Event>)
    requires var s := Run(events); s.lock.Free? && !s.handler.Waiting?
    ensures var s := Run(events);
      && (s.alarm.None? <==> s.agent.schedules == [])
      && (s.alarm.Some? ==>
            && (forall j :: j in s.agent.schedules ==> s.alarm.value <= j.fireAt)
            && (exists j :: j in s.agent.schedules && j.fireAt == s.alarm.value))
  {
    RunKeeps(events);
    EarliestIsTheMinimum(Run(events).agent.schedules);
  }

  /** Between a state write and the refresh of the alarm that goes with it no other schedule is
   *  written, and the alarm changes only by firing or under the lock. */
  lemma TheLockExcludes(s: State, e: Event)
    ensures s.lock.Refreshing? ==> Step(s, e).agent.schedules == s.agent.schedules
    ensures s.lock.Refreshing? ==> Step(s, e).lock == (if e.RefreshAlarm? then Free else Refreshing)
    ensures Step(s, e).alarm != s.alarm ==> e.AlarmFires? || (e.RefreshAlarm? && s.lock.Refreshing?)
    ensures Step(s, e).agent.schedules != s.agent.schedules ==> s.lock.Free? && Step(s, e).lock.Refreshing?
  {
  }

  function LastWritten(events: seq<Event>): seq<string> {
    if events == [] then []
    else if events[|events| - 1].WriteDocs? then events[|events| - 1].docs
    else LastWritten(events[..|events| - 1])
  }

  // No schedule change or wake-up loses what was last written to history, todo list or terminal.
  lemma {:induction false} DocsAreTheLastWritten(events: seq<Event>)
    ensures Run(events).agent.docs == LastWritten(events)
    decreases |events|
  {
    if events != [] { DocsAreTheLastWritten(events[..|events| - 1]); }
  }

  lemma RunSnoc(events: seq<Event>, e: Event)
    ensures Run(events + [e]) == Step(Run(events), e)
  {
    assert (events + [e])[..|events|] == events;
  }

  function At(jobs: seq<Job>, now: int): seq<(Job, int)> {
    seq(|jobs|, i requires 0 <= i < |jobs| => (jobs[i], now))
  }

  // The handler runs what it popped, in order.
  lemma {:induction false} HandlerRunsItsJobs(events: seq<Event>) returns (more: seq<Event>)
    requires Run(events).handler.Running?
    ensures var s := Run(events);
      Run(events + more)
      == s.(handler := Running([], s.handler.now), ran := s.ran + At(s.handler.due, s.handler.now))
    decreases |Run(events).handler.due|
  {
    var s := Run(events);
    if s.handler.due == [] {
      more := [];
      assert events + [] == events && s.ran + At([], s.handler.now) == s.ran;
    } else {
      RunSnoc(events, RunNext);
      var rest := HandlerRunsItsJobs(events + [RunNext]);
      more := [RunNext] + rest;
      assert events + more == events + [RunNext] + rest;
      var due, now := s.handler.due, s.handler.now;
      assert At(due, now) == [(due[0], now)] + At(due[1..], now);
      assert s.ran + [(due[0], now)] + At(due[1..], now) == s.ran + At(due, now);
    }
  }

  /** A wake-up that nothing comes in between runs exactly the jobs due at its time, once each,
   *  in the order they are stored, leaves the others, sets the alarm to the earliest of them,
   *  and is then over. */
  lemma AWakeUpRunsExactlyWhatIsDue(events: seq<Event>, now: int) returns (wake: seq<Event>, due: seq<Job>)
    requires var s := Run(events); s.lock.Free? && s.handler.NoHandler? && s.alarm.Some? && s.alarm.value <= now
    ensures var s, t := Run(events), Run(events + wake);
      && Selects(s.agent.schedules, due, (j: Job) => j.fireAt <= now) && due != []
      && t.ran == s.ran + At(due, now)
      && Selects(s.agent.schedules, t.agent.schedules, (j: Job) => j.fireAt > now)
      && t.alarm == Earliest(t.agent.schedules)
      && t == s.(agent := AgentState(t.agent.schedules, s.agent.docs), alarm := t.alarm, ran := t.ran)
  {
    var s := Run(events);
    DueSelects(s.agent.schedules, now);
    due := Due(s.agent.schedules, now);
    SomethingIsDue(events, now);
    wake := WholeWakeUp(events, now);
  }

  // The state after the wake-up.
  function Woken(s: State, now: int): State {
    var left := Remaining(s.agent.schedules, now);
    s.(agent := AgentState(left, s.agent.docs), alarm := Earliest(left),
       ran := s.ran + At(Due(s.agent.schedules, now), now))
  }

  lemma WholeWakeUp(events: seq<Event>, now: int) returns (wake: seq<Event>)
    requires var s := Run(events); s.lock.Free? && s.handler.NoHandler? && s.alarm.Some? && s.alarm.value <= now
    ensures Run(events + wake) == Woken(Run(events), now)
  {
    var start := PopsWhatIsDue(events, now);
    var ran := HandlerRunsItsJobs(events + start);
    var last := events + start + ran;
    assert Run(last) == Woken(Run(events), now).(handler := Running([], now));
    RunSnoc(last, HandlerEnds);
    wake := start + ran + [HandlerEnds];
    assert events + wake == last + [HandlerEnds];
  }

  lemma PopsWhatIsDue(events: seq<Event>, now: int) returns (start: seq<Event>)
    requires var s := Run(events); s.lock.Free? && s.handler.NoHandler? && s.alarm.Some? && s.alarm.value <= now
    ensures Run(events + start) == Popped(Run(events), now)
  {
    var s := Run(events);
    RunSnoc(events, AlarmFires(now));
    var fired := events + [AlarmFires(now)];
    var s1 := s.(alarm := None, handler := Waiting(now));
    assert Run(fired) == s1;
    RunSnoc(fired, PopDue);
    var popped := fired + [PopDue];
    var s2 := s1.(agent := s1.agent.(schedules := Remaining(s.agent.schedules, now)),
                  lock := Refreshing, handler := Running(Due(s.agent.schedules, now), now));
    assert Run(popped) == s2;
    RunSnoc(popped, RefreshAlarm);
    start := [AlarmFires(now), PopDue, RefreshAlarm];
    assert events + start == popped + [RefreshAlarm];
  }

  // The state in which the handler has what is due.
  function Popped(s: State, now: int): State {
    var left := Remaining(s.agent.schedules, now);
    s.(agent := AgentState(left, s.agent.docs), alarm := Earliest(left),
       handler := Running(Due(s.agent.schedules, now), now))
  }

  // The alarm is that of a stored job, which the wake-up finds due.
  lemma SomethingIsDue(events: seq<Event>, now: int)
    requires var s := Run(events); s.lock.Free? && s.handler.NoHandler? && s.alarm.Some? && s.alarm.value <= now
    ensures Due(Run(events).agent.schedules, now) != []
  {
    AlarmIsTheEarliest(events);
    var s := Run(events);
    var j :| j in s.agent.schedules && j.fireAt == s.alarm.value;
    DueAndRemainingMembers(s.agent.schedules, now, j);
  }

  /** Over every run: cancelling takes out exactly the job with that id, if it is stored, and
   *  leaves the others in their order; it is then among the removed ones. */
  lemma CancelTakesExactlyThatJob(events: seq<Event>, id: nat)
    requires Run(events).lock.Free?
    ensures var s := Run(events); var t := Step(s, UpdateSchedules(CancelSchedule(id)));
      && Selects(s.agent.schedules, t.agent.schedules, (j: Job) => j.id != id)
      && (forall j :: j in t.agent.schedules <==> j in s.agent.schedules && j.id != id)
      && (forall j :: j in t.removed <==> j in s.removed || (j in s.agent.schedules && j.id == id))
      && t.alarm == s.alarm && t.handler == s.handler && t.agent.docs == s.agent.docs
  {
    var s := Run(events);
    var t := Step(s, UpdateSchedules(CancelSchedule(id)));
    WithIdSelects(s.agent.schedules, id);
    SelectedMembers(s.agent.schedules, t.agent.schedules, (j: Job) => j.id != id);
    SelectedMembers(s.agent.schedules, WithId(s.agent.schedules, id, true), (j: Job) => j.id == id);
  }

  lemma SelectedMembers(jobs: seq<Job>, r: seq<Job>, wanted: Job -> bool)
    requires Selects(jobs, r, wanted)
    ensures forall j :: j in r <==> j in jobs && wanted(j)
  {
    var at: seq<nat> :| IsAt(jobs, r, at, wanted);
    forall j
      ensures j in r <==> j in jobs && wanted(j)
    {
      if j in r {
        var k :| 0 <= k < |r| && r[k] == j;
        assert at[k] in at && jobs[at[k]] == j;
      }
      if j in jobs && wanted(j) {
        var i :| 0 <= i < |jobs| && jobs[i] == j;
        var k :| 0 <= k < |at| && at[k] == i;
        assert r[k] == j;
      }
    }
  }

  /** Over every run: below the cap a new job is stored behind the others, with its time and
   *  prompt and an id no job ever had; at the cap nothing changes. */
  lemma SchedulingStoresExactlyBelowTheCap(events: seq<Event>, fireAt: int, prompt: string)
    requires Run(events).lock.Free?
    ensures var s := Run(events); var t := Step(s, UpdateSchedules(ScheduleSelf(fireAt, prompt)));
      if |s.agent.schedules| < MAX_SCHEDULES
      then exists j :: t.agent.schedules == s.agent.schedules + [j] && j.fireAt == fireAt && j.prompt == prompt
                       && (forall k :: k in s.created ==> k.id != j.id)
                       && (forall k :: k in s.agent.schedules ==> k.id != j.id)
      else t == s.(lock := Refreshing)
  {
    RunKeeps(events);
    var s := Run(events);
    var t, j := Step(s, UpdateSchedules(ScheduleSelf(fireAt, prompt))), Job(|s.created|, fireAt, prompt);
    if |s.agent.schedules| < MAX_SCHEDULES {
      forall k | k in s.agent.schedules ensures k in s.created {
        assert Places(s)[k] > 0;
      }
      assert t.agent.schedules == s.agent.schedules + [j];
    }
  }

  /** An alarm that fires pops exactly the jobs due at its time: none of them stays. */
  lemma PopTakesAllThatIsDue(events: seq<Event>, job: Job)
    requires var s := Run(events); s.lock.Free? && s.handler.Waiting?
    ensures var s := Run(events); var t := Step(s, PopDue);
      && (job in t.handler.due <==> job in s.agent.schedules && job.fireAt <= s.handler.now)
      && (job in t.agent.schedules <==> job in s.agent.schedules && job.fireAt > s.handler.now)
      && Selects(s.agent.schedules, t.handler.due, (j: Job) => j.fireAt <= s.handler.now)
      && Selects(s.agent.schedules, t.agent.schedules, (j: Job) => j.fireAt > s.handler.now)
  {
    DueSelects(Run(events).agent.schedules, Run(events).handler.now);
    DueAndRemainingMembers(Run(events).agent.schedules, Run(events).handler.now, job);
  }

  // ------------------------------------------------------------------ the object

  class RalticAgent {
    var state: AgentState
    var alarm: Option<int>
    var nextId: nat

    constructor ()
      ensures state == AgentState([], []) && alarm == None && nextId == 0
    {
      state, alarm, nextId := AgentState([], []), None, 0;
    }

    // Under the lock: delete the alarm, or set it to the earliest job if it differs.
    method Refresh()
      modifies this`alarm
      ensures alarm == Earliest(state.schedules)
    {
      var jobs := state.schedules;
      if jobs == [] {
        alarm := None;
        return;
      }
      var earliest := jobs[0].fireAt;
      assert jobs[..1][..0] == [] && Earliest(jobs[..1]) == Some(jobs[0].fireAt);
      for i := 1 to |jobs|
        invariant Earliest(jobs[..i]) == Some(earliest)
      {
        assert jobs[..i + 1][..i] == jobs[..i];
        if jobs[i].fireAt < earliest {
          earliest := jobs[i].fireAt;
        }
      }
      assert jobs[..|jobs|] == jobs;
      if alarm != Some(earliest) {
        alarm := Some(earliest);
      }
    }

    /** A whole locked update: the new list, and an alarm that fits it. */
    method UpdateLocked(u: Updater)
      modifies this
      ensures state.docs == old(state).docs
      ensures match u
              case ScheduleSelf(fireAt, prompt) =>
                state.schedules == old(state).schedules +
                  (if |old(state).schedules| >= MAX_SCHEDULES then [] else [Job(old(nextId), fireAt, prompt)])
              case CancelSchedule(id) =>
                state.schedules == WithId(old(state).schedules, id, false)
                && Selects(old(state).schedules, state.schedules, (j: Job) => j.id != id)
      ensures alarm == Earliest(state.schedules)
    {
      var jobs := state.schedules;
      match u {
        case ScheduleSelf(fireAt, prompt) =>
          if |jobs| < MAX_SCHEDULES {
            state := state.(schedules := jobs + [Job(nextId, fireAt, prompt)]);
            nextId := nextId + 1;
          } else {
            assert jobs + [] == jobs;
          }
        case CancelSchedule(id) =>
          var next := [];
          for i := 0 to |jobs|
            invariant next == WithId(jobs[..i], id, false)
          {
            assert jobs[..i + 1][..i] == jobs[..i];
            if jobs[i].id != id { next := next + [jobs[i]]; }
          }
          assert jobs[..|jobs|] == jobs;
          WithIdSelects(jobs, id);
          state := state.(schedules := next);
      }
      Refresh();
    }

    /** The locked part of the alarm handler. */
    method PopLocked(now: int) returns (due: seq<Job>)
      modifies this
      ensures due == Due(old(state).schedules, now)
      ensures state == old(state).(schedules := Remaining(old(state).schedules, now))
      ensures Selects(old(state).schedules, due, (j: Job) => j.fireAt <= now)
      ensures Selects(old(state).schedules, state.schedules, (j: Job) => j.fireAt > now)
      ensures alarm == Earliest(state.schedules)
    {
      var jobs := state.schedules;
      DueSelects(jobs, now);
      due := [];
      var remaining := [];
      for i := 0 to |jobs|
        invariant due == Due(jobs[..i], now) && remaining == Remaining(jobs[..i], now)
      {
        assert jobs[..i + 1][..i] == jobs[..i];
        if jobs[i].fireAt <= now { due := due + [jobs[i]]; } else { remaining := remaining + [jobs[i]]; }
      }
      assert jobs[..|jobs|] == jobs;
      state := state.(schedules := remaining);
      Refresh();
    }
  }
}
