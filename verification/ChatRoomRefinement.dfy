/** A chat room behaves as a plain append-only log with deduplication: the buffer,
 * the alarm, D1 failures and reloads are invisible to its callers. */
module ChatRoomRefinement {
  import opened Wrappers
  import opened ChatRoomLog
  import opened ChatRoomSafety

  // --------------------------------------------------------- the plain log

  // The position (from 1) of the entry written for a key, or 0.
  function Find(log: seq<Entry>, k: IdemKey): nat
    decreases |log|
  {
    if log == [] then 0
    else
      var p := Find(log[..|log| - 1], k);
      if p != 0 then p else if log[|log| - 1].key == Some(k) then |log| else 0
  }

  function PlainSend(log: seq<Entry>, key: string, draft: Draft, now: int): (seq<Entry>, Reply) {
    var k := (draft.senderId, key);
    var p := Find(log, k);
    if p != 0 then (log, Deduped(p))
    else (log + [Entry(Message(draft, |log| + 1, now, now), Some(k))], Accepted(|log| + 1))
  }

  function PlainSeed(log: seq<Entry>, drafts: seq<Draft>, now: int): seq<Entry> {
    log + seq(|drafts|, i requires 0 <= i < |drafts| => Entry(Message(drafts[i], |log| + i + 1, now, now), None))
  }

  function PlainStep(log: seq<Entry>, e: Event): seq<Entry> {
    match e
    case SendMessage(key, draft, now) => PlainSend(log, key, draft, now).0
    case SeedMessages(drafts, now) => PlainSeed(log, drafts, now)
    case _ => log
  }

  function PlainRun(events: seq<Event>): seq<Entry>
    decreases |events|
  {
    if events == [] then []
    else PlainStep(PlainRun(events[..|events| - 1]), events[|events| - 1])
  }

  // ------------------------------------------------------------ the refinement

  lemma {:induction false} FindIsFirstMatch(log: seq<Entry>, k: IdemKey)
    ensures var p := Find(log, k);
      && p <= |log|
      && (p == 0 ==> forall i :: 0 <= i < |log| ==> log[i].key != Some(k))
      && (p != 0 ==> log[p - 1].key == Some(k) && forall i :: 0 <= i < p - 1 ==> log[i].key != Some(k))
    decreases |log|
  {
    if log != [] { FindIsFirstMatch(log[..|log| - 1], k); }
  }

  // The idempotency table answers what a search of the whole log would.
  lemma IdemTableIsTheSearch(s: State, k: IdemKey)
    requires Inv(s)
    ensures k in s.idem <==> Find(s.log, k) != 0
    ensures k in s.idem ==> s.idem[k] == Find(s.log, k)
  {
    FindIsFirstMatch(s.log, k);
  }

  lemma SendRefines(s: State, key: string, draft: Draft, now: int)
    requires Inv(s)
    ensures var (t, reply) := Send(s, key, draft, now);
      (t.log, reply) == PlainSend(s.log, key, draft, now)
  {
    IdemTableIsTheSearch(s, (draft.senderId, key));
  }

  lemma SeedRefines(s: State, drafts: seq<Draft>, now: int)
    requires Inv(s)
    ensures Seed(s, drafts, now).log == PlainSeed(s.log, drafts, now)
  {
    AllocateAllOnlyAppends(s, drafts, now);
  }

  lemma StepRefines(s: State, e: Event)
    requires Inv(s)
    ensures Step(s, e).log == PlainStep(s.log, e)
  {
    match e
    case SendMessage(key, draft, now) => SendRefines(s, key, draft, now);
    case SeedMessages(drafts, now) => SeedRefines(s, drafts, now);
    case _ =>
  }

  lemma {:induction false} RunRefines(events: seq<Event>)
    ensures Run(events).log == PlainRun(events)
    decreases |events|
  {
    if events != [] {
      var front := events[..|events| - 1];
      RunRefines(front);
      RunKeeps(Init, front);
      StepRefines(Run(front), events[|events| - 1]);
    }
  }

  // What a reader of the buffer and of D1 together sees.
  function ReadBack(s: State): map<nat, Message> {
    (map q | q in s.pending :: s.pending[q].message) + s.d1
  }

  ghost predicate IsTableOf(table: map<nat, Message>, log: seq<Entry>) {
    forall q: nat :: (q in table <==> 1 <= q <= |log|) && (q in table ==> table[q] == log[q - 1].message)
  }

  lemma ReadBackAt(s: State, q: nat)
    requires Inv(s)
    ensures q in ReadBack(s) ==> 1 <= q <= |s.log| && ReadBack(s)[q] == s.log[q - 1].message
    ensures Held(s, q) ==> q in ReadBack(s)
  {
    if q in s.d1 { assert Logged(s.log, s.d1[q]); }
    else if q in s.pending { assert Logged(s.log, s.pending[q].message); }
  }

  /** After any run, buffer and D1 together hold the plain log, row for row. */
  lemma RunReadsBackThePlainLog(events: seq<Event>)
    ensures var s := Run(events);
      NoPoison(s) && FreshIds(s) ==> IsTableOf(ReadBack(s), PlainRun(events))
  {
    RunKeeps(Init, events);
    RunRefines(events);
    var s := Run(events);
    if NoPoison(s) && FreshIds(s) {
      forall q: nat
        ensures q in ReadBack(s) <==> 1 <= q <= |s.log|
        ensures q in ReadBack(s) ==> ReadBack(s)[q] == s.log[q - 1].message
      {
        ReadBackAt(s, q);
        if 1 <= q <= |s.log| { NoAcknowledgedMessageIsLost(events, q); }
      }
    }
  }

  // --------------------------------------------------- sequence numbers and keys

  /** Allocated numbers are 1..next_seq, in memory and in storage, through every reload,
   *  and no (sender, key) pair ever allocates two rows. */
  lemma SeqsAreDenseAndKeysAreUnique(events: seq<Event>)
    ensures var s := Run(events);
      && s.nextSeq == s.storedSeq == |PlainRun(events)|
      && (forall i :: 0 <= i < |s.log| ==> s.log[i].message.seqNo == i + 1)
      && (forall i, j :: 0 <= i < j < |s.log| && s.log[i].key.Some? ==> s.log[i].key != s.log[j].key)
  {
    RunKeeps(Init, events);
    RunRefines(events);
  }

  lemma IdemOnlyGrows(s: State, e: Event, k: IdemKey)
    requires k in s.idem
    ensures k in Step(s, e).idem && Step(s, e).idem[k] == s.idem[k]
  {
    match e
    case SeedMessages(drafts, now) => AllocateAllOnlyAppends(s, drafts, now);
    case _ =>
  }

  lemma {:induction false} IdemOnlyGrowsInRuns(s: State, events: seq<Event>, k: IdemKey)
    requires k in s.idem
    ensures k in RunFrom(s, events).idem && RunFrom(s, events).idem[k] == s.idem[k]
    decreases |events|
  {
    if events != [] {
      var front := events[..|events| - 1];
      IdemOnlyGrowsInRuns(s, front, k);
      IdemOnlyGrows(RunFrom(s, front), events[|events| - 1], k);
    }
  }

  /** A retry returns the sequence number of the first attempt and changes nothing,
   *  whatever happened in between; only sender and key need to agree. */
  lemma ReplayReturnsTheOriginalSeq(
      before: seq<Event>, key: string, draft: Draft, now: int, between: seq<Event>, retry: Draft, later: int)
    requires retry.senderId == draft.senderId
    ensures var (s, first) := Send(Run(before), key, draft, now);
      var t := RunFrom(s, between);
      Send(t, key, retry, later) == (t, Deduped(first.seqNo))
  {
    var s := Send(Run(before), key, draft, now).0;
    IdemOnlyGrowsInRuns(s, between, (draft.senderId, key));
  }
}
