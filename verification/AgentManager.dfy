/** The agent manager's objects: the map slot of one agent and the entry in it.  Handlers
 * close over the entry they were started for, which need not be the one in the map. */
module AgentManagerObject {
  import opened Wrappers
  import opened AgentQueue

  class AgentEntry {
    var busy: bool
    var current: Option<nat>
    var queue: seq<nat>
    ghost const id: nat

    constructor (ghost id: nat)
      ensures !busy && current == None && queue == [] && this.id == id
    {
      busy, current, queue := false, None, [];
      this.id := id;
    }

    ghost function View(): Entry
      reads this
    {
      Entry(busy, current, queue)
    }

    // The messages it would settle if rejected now, in that order.
    ghost function Held(): seq<nat>
      reads this
    {
      (if current.Some? then [current.value] else []) + queue
    }
  }

  class AgentManager {
    var session: bool
    var spawning: bool
    var waiters: seq<nat>
    // The queue in the closure of a restart.
    var carried: seq<nat>
    var entry: AgentEntry?
    var next: nat
    ghost var epoch: nat
    ghost var acts: map<nat, Act>
    ghost var open: set<nat>
    ghost var settled: seq<nat>
    ghost var started: seq<nat>
    ghost var sent: seq<Handed>

    ghost function View(): State
      reads this, entry
    {
      State(session, spawning, waiters, carried, if entry == null then None else Some(entry.View()),
            epoch, acts, open, settled, started, sent, next)
    }

    ghost predicate Valid()
      reads this
    {
      entry != null ==> entry.id == epoch
    }

    constructor ()
      ensures Valid() && View() == Init
    {
      session, spawning, waiters, carried, entry, next := true, false, [], [], null, 0;
      epoch, acts, open, settled, started, sent := 0, map[], {}, [], [], [];
    }

    // The head of `_sendNow`, up to its first await.
    method SendNow(e: AgentEntry, msg: nat)
      requires e == entry && e.busy
      modifies this`started, this`acts, e`current
      ensures View() == Start(old(View()), msg)
    {
      e.current := Some(msg);
      acts := acts[msg := Act(epoch, Reporting)];
      started := started + [msg];
    }

    method Enqueue(e: AgentEntry, msg: nat)
      requires e == entry
      modifies this`started, this`acts, e
      ensures View() == Deliver(old(View()), msg)
    {
      if e.busy {
        e.queue := e.queue + [msg];
        return;
      }
      e.busy := true;
      SendNow(e, msg);
    }

    // Works on whatever entry the map holds now.
    method DrainQueue()
      modifies this`started, this`acts, entry
      ensures View() == Drain(old(View()))
      ensures entry == old(entry)
    {
      var e := entry;
      if e == null || !session || e.queue == [] {
        return;
      }
      var msg := e.queue[0];
      e.queue := e.queue[1..];
      e.busy := true;
      SendNow(e, msg);
    }

    // Returns the message's number, or None when there is no such agent.
    method SendToAgent(unavailable: bool) returns (accepted: Option<nat>)
      requires Valid()
      modifies this, entry
      ensures Valid() && View() == Step(old(View()), if unavailable then AcceptUnavailable else Accept)
      ensures accepted == if old(session) then Some(old(next)) else None
    {
      if !session {
        return None;
      }
      accepted := Some(next);
      next := next + 1;
      if unavailable {
        settled := settled + [accepted.value];
        return;
      }
      if entry != null {
        Enqueue(entry, accepted.value);
        return;
      }
      spawning := true;
      waiters := waiters + [accepted.value];
    }

    // Everyone who waited goes on, in the order they came.
    method ServeWaiters(e: AgentEntry)
      requires e == entry
      modifies this`waiters, this`started, this`acts, e
      ensures View() == DeliverWaiters(old(View()))
    {
      while waiters != []
        invariant entry == e && DeliverWaiters(View()) == DeliverWaiters(old(View()))
        decreases |waiters|
      {
        var msg := waiters[0];
        waiters := waiters[1..];
        Enqueue(e, msg);
      }
    }

    // The new entry is put into the map, with what a restart carried over.
    method Install()
      requires entry == null
      modifies this`entry, this`epoch, this`carried
      ensures Valid() && entry != null && fresh(entry)
      ensures View() == old(View()).(
                          entry := Some(Idle.(queue := old(carried))), epoch := old(epoch) + 1, carried := [])
    {
      epoch := epoch + 1;
      entry := new AgentEntry(epoch);
      entry.queue := carried;
      carried := [];
    }

    /** The shared spawn promise settles, and with it every caller waiting for it. */
    method SpawnDone(ready: bool)
      requires Valid() && spawning && entry == null
      modifies this
      ensures Valid() && View() == Step(old(View()), if ready then SpawnSucceeds else SpawnFails)
      ensures entry != null ==> fresh(entry)
    {
      spawning := false;
      if !ready || !session {
        settled := settled + waiters + (if ready then carried else []);
        waiters, carried := [], [];
        return;
      }
      Install();
      ServeWaiters(entry);
    }

    // The "running" report is done: the message goes to the session of the entry it was started on.
    method Reported(msg: nat)
      requires Valid() && InPhase(View(), msg, Reporting)
      modifies this`acts, this`sent, this`open
      ensures Valid() && View() == Step(old(View()), RunReported(msg))
    {
      sent := sent + [Handed(acts[msg].epoch, msg)];
      if Mapped(View(), msg) { open := open + {msg}; }
      acts := acts[msg := acts[msg].(phase := Sending)];
    }

    /** The end of a failed `_sendNow` for entry `e`, its "failed" report done: whether `e` is
     *  still mapped and still has this message, has moved on, or is gone. */
    method SendFailed(e: AgentEntry, msg: nat)
      requires Valid() && InPhase(View(), msg, Failing) && acts[msg].epoch == e.id
      requires entry != null && e.id == epoch ==> e == entry
      modifies this, e, entry
      ensures Valid() && View() == Step(old(View()), FailureReported(msg))
    {
      if (e == entry && e.current == Some(msg)) || msg !in settled {
        settled := settled + [msg];
      }
      acts := acts - {msg};
      if e.current == Some(msg) {
        e.current := None;
      }
      e.busy := false;
      DrainQueue();
    }

    // The handler does not look at whose turn completed; `msg` is only for the specification.
    method TurnComplete(ghost msg: nat)
      requires Valid() && WasSent(View(), msg)
      modifies this, entry
      ensures Valid() && View() == Step(old(View()), TurnCompletes(msg))
    {
      var e := entry;
      if e == null {
        return;
      }
      if e.current.Some? {
        settled := settled + [e.current.value];
      }
      assert settled == old(settled) + Current(old(View()));
      open := open - {msg};
      e.current := None;
      e.busy := false;
      DrainQueue();
    }

    // Reject everything entry `e` holds.
    method RejectAll(e: AgentEntry) returns (ghost held: seq<nat>)
      modifies e
      ensures held == old(e.Held())
      ensures e.current == None && e.queue == []
    {
      held := [];
      if e.current.Some? {
        held := held + [e.current.value];
        e.current := None;
      }
      held := held + e.queue;
      e.queue := [];
    }

    /** The exit listener of entry `e`.  An entry that is no longer mapped settles what it may
     *  still hold, in order, and changes nothing else. */
    method Exited(e: AgentEntry)
      requires Valid()
      modifies this, e
      ensures Valid()
      ensures old(entry) == e ==> View() == Step(old(View()), Exits)
      ensures e.Held() == []
      ensures old(entry) != e ==>
                entry == old(entry) && View() == old(View()).(settled := old(settled) + old(e.Held()))
    {
      ghost var held := RejectAll(e);
      settled := settled + held;
      if entry == e {
        entry := null;
        open := {};
      }
    }

    method StopAgent()
      requires Valid()
      modifies this, entry
      ensures Valid() && View() == Step(old(View()), Stops)
    {
      session := false;
      var e := entry;
      if e == null {
        return;
      }
      entry := null;
      open := {};
      ghost var held := RejectAll(e);
      settled := settled + held;
    }

    /** A restart up to its first await; the spawn that follows ends in `SpawnDone`. */
    method RestartForAgent()
      requires Valid()
      modifies this, entry
      ensures Valid() && View() == Step(old(View()), Restarts)
      ensures old(session && entry != null) ==> entry == null && carried == old(Queue(View()))
    {
      var previous := entry;
      if !session || previous == null {
        return;
      }
      entry := null;
      open := {};
      carried := previous.queue;
      previous.queue := [];
      spawning := true;
    }
  }
}
