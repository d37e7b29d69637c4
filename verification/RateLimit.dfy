/** The sliding-window rate limiter: one key's list of timestamps in a key-value store whose
 *  entry may vanish once its time to live, twice the window, is over.
 *
 *  Reads and writes of the store are taken to be consistent, and the clock never to go back.
 */
module RateLimit {
  import opened Wrappers

  datatype Entry = Entry(times: seq<int>, expiresAt: int)

  datatype Limit = Limit(max: nat, window: nat)

  // A request at `now`; `purged` says that the store has dropped the entry, if it may.
  datatype Request = Request(now: int, purged: bool)

  // `accepted` and `refused` are histories: the times let through, and every answer.
  datatype State = State(entry: Option<Entry>, accepted: seq<int>, refused: seq<bool>)

  // ------------------------------------------------------------------ the steps

  function Live(times: seq<int>, cutoff: int): seq<int> {
    if times == [] then []
    else
      var t := times[|times| - 1];
      Live(times[..|times| - 1], cutoff) + (if t > cutoff then [t] else [])
  }

  // What a read returns.
  function Read(entry: Option<Entry>, r: Request): seq<int> {
    if entry.None? || (r.purged && r.now >= entry.value.expiresAt) then [] else entry.value.times
  }

  function Decide(entry: Option<Entry>, limit: Limit, r: Request): (bool, Option<Entry>) {
    var live := Live(Read(entry, r), r.now - limit.window);
    if |live| >= limit.max then (true, entry)
    else (false, Some(Entry(live + [r.now], r.now + 2 * limit.window)))
  }

  function Step(s: State, limit: Limit, r: Request): State {
    var (refused, entry) := Decide(s.entry, limit, r);
    State(entry, s.accepted + (if refused then [] else [r.now]), s.refused + [refused])
  }

  function Run(limit: Limit, trace: seq<Request>): State {
    if trace == [] then State(None, [], [])
    else Step(Run(limit, trace[..|trace| - 1]), limit, trace[|trace| - 1])
  }

  // The clock never goes back.
  ghost predicate Forward(trace: seq<Request>) {
    forall i, j :: 0 <= i < j < |trace| ==> trace[i].now <= trace[j].now
  }

  // How many of `times` lie in the half-open interval from `lo` to `hi`.
  function InWindow(times: seq<int>, lo: int, hi: int): nat {
    if times == [] then 0
    else
      var t := times[|times| - 1];
      InWindow(times[..|times| - 1], lo, hi) + (if lo < t <= hi then 1 else 0)
  }

  // ------------------------------------------------------------- the invariant

  function Stored(entry: Option<Entry>): seq<int> { if entry.None? then [] else entry.value.times }

  ghost predicate NoneAfter(times: seq<int>, now: int) { forall i :: 0 <= i < |times| ==> times[i] <= now }

  // The entry and the full history hold the same times from `now`'s window on.
  ghost predicate Agree(stored: seq<int>, accepted: seq<int>, cutoff: int) {
    Live(stored, cutoff) == Live(accepted, cutoff)
  }

  // The entry lasts until no accepted time matters any more.
  ghost predicate ExpiresLate(s: State, limit: Limit) {
    s.entry.Some? ==> NoneAfter(s.accepted, s.entry.value.expiresAt - 2 * limit.window)
  }

  ghost predicate Inv(s: State, limit: Limit, now: int) {
    && NoneAfter(s.accepted, now)
    && Agree(Stored(s.entry), s.accepted, now - limit.window)
    && ExpiresLate(s, limit)
  }

  // ---------------------------------------------------------------- the proofs

  lemma LiveOfSnoc(times: seq<int>, t: int, cutoff: int)
    ensures Live(times + [t], cutoff) == Live(times, cutoff) + (if t > cutoff then [t] else [])
  {
    assert (times + [t])[..|times|] == times;
  }

  lemma {:induction false} LiveTwice(times: seq<int>, c: int, d: int)
    requires c <= d
    ensures Live(Live(times, c), d) == Live(times, d)
  {
    if times != [] {
      var front, t := times[..|times| - 1], times[|times| - 1];
      LiveTwice(front, c, d);
      if t > c { LiveOfSnoc(Live(front, c), t, d); } else { assert Live(front, c) + [] == Live(front, c); }
    }
  }

  lemma {:induction false} NoneLive(times: seq<int>, cutoff: int)
    requires NoneAfter(times, cutoff)
    ensures Live(times, cutoff) == []
  {
    if times != [] { NoneLive(times[..|times| - 1], cutoff); }
  }

  lemma {:induction false} LiveCounts(times: seq<int>, cutoff: int, now: int)
    requires NoneAfter(times, now)
    ensures |Live(times, cutoff)| == InWindow(times, cutoff, now)
  {
    if times != [] { LiveCounts(times[..|times| - 1], cutoff, now); }
  }

  lemma {:induction false} NarrowerHoldsLess(times: seq<int>, lo: int, hi: int, lo': int, hi': int)
    requires lo' <= lo && hi <= hi'
    ensures InWindow(times, lo, hi) <= InWindow(times, lo', hi')
  {
    if times != [] { NarrowerHoldsLess(times[..|times| - 1], lo, hi, lo', hi'); }
  }

  lemma AgreeLater(stored: seq<int>, accepted: seq<int>, c: int, d: int)
    requires Agree(stored, accepted, c) && c <= d
    ensures Agree(stored, accepted, d)
  {
    LiveTwice(stored, c, d);
    LiveTwice(accepted, c, d);
  }

  lemma Later(s: State, limit: Limit, before: int, now: int)
    requires Inv(s, limit, before) && before <= now
    ensures Inv(s, limit, now)
  {
    AgreeLater(Stored(s.entry), s.accepted, before - limit.window, now - limit.window);
    assert NoneAfter(s.accepted, now);
  }

  // A read sees every accepted time that still matters, purged or not.
  lemma ReadIsFaithful(s: State, limit: Limit, r: Request)
    requires Inv(s, limit, r.now)
    ensures Agree(Read(s.entry, r), s.accepted, r.now - limit.window)
  {
    if s.entry.Some? && r.purged && r.now >= s.entry.value.expiresAt {
      NoneLive(s.accepted, r.now - limit.window);
    }
  }

  lemma PushAgrees(stored: seq<int>, accepted: seq<int>, cutoff: int, now: int)
    requires Agree(stored, accepted, cutoff)
    ensures Agree(Live(stored, cutoff) + [now], accepted + [now], cutoff)
  {
    LiveTwice(stored, cutoff, cutoff);
    LiveOfSnoc(Live(stored, cutoff), now, cutoff);
    LiveOfSnoc(accepted, now, cutoff);
  }

  lemma AcceptKeeps(s: State, limit: Limit, r: Request)
    requires Inv(s, limit, r.now) && !Decide(s.entry, limit, r).0
    ensures Inv(Step(s, limit, r), limit, r.now)
  {
    var t, times := Step(s, limit, r), Live(Read(s.entry, r), r.now - limit.window) + [r.now];
    assert NoneAfter(t.accepted, r.now) by {
      assert t.accepted == s.accepted + [r.now];
    }
    assert t.entry == Some(Entry(times, r.now + 2 * limit.window));
    assert Agree(times, t.accepted, r.now - limit.window) by {
      ReadIsFaithful(s, limit, r);
      PushAgrees(Read(s.entry, r), s.accepted, r.now - limit.window, r.now);
    }
  }

  lemma StepKeeps(s: State, limit: Limit, r: Request)
    requires Inv(s, limit, r.now)
    ensures Inv(Step(s, limit, r), limit, r.now)
  {
    if Decide(s.entry, limit, r).0 {
      assert s.accepted + [] == s.accepted;
    } else {
      AcceptKeeps(s, limit, r);
    }
  }

  lemma {:induction false} RunKeeps(limit: Limit, trace: seq<Request>, now: int)
    requires Forward(trace)
    requires trace != [] ==> trace[|trace| - 1].now <= now
    ensures Inv(Run(limit, trace), limit, now)
  {
    if trace != [] {
      var front, r := trace[..|trace| - 1], trace[|trace| - 1];
      RunKeeps(limit, front, r.now);
      StepKeeps(Run(limit, front), limit, r);
      Later(Run(limit, trace), limit, r.now, now);
    }
  }

  // ------------------------------------------------------------------ theorems

  lemma DecidesByCount(s: State, limit: Limit, r: Request)
    requires Inv(s, limit, r.now)
    ensures Decide(s.entry, limit, r).0 <==> InWindow(s.accepted, r.now - limit.window, r.now) >= limit.max
  {
    ReadIsFaithful(s, limit, r);
    LiveCounts(s.accepted, r.now - limit.window, r.now);
  }

  /** A request is refused exactly when `max` accepted ones lie in its window, whatever the
   *  store has dropped. */
  lemma RefusedExactlyWhenFull(limit: Limit, trace: seq<Request>, r: Request)
    requires Forward(trace) && (trace != [] ==> trace[|trace| - 1].now <= r.now)
    ensures var s := Run(limit, trace);
      Decide(s.entry, limit, r).0 <==> InWindow(s.accepted, r.now - limit.window, r.now) >= limit.max
  {
    RunKeeps(limit, trace, r.now);
    DecidesByCount(Run(limit, trace), limit, r);
  }

  lemma PushStaysUnder(times: seq<int>, now: int, start: int, limit: Limit)
    requires NoneAfter(times, now)
    requires InWindow(times, start, start + limit.window) <= limit.max
    requires InWindow(times, now - limit.window, now) < limit.max
    ensures InWindow(times + [now], start, start + limit.window) <= limit.max
  {
    assert (times + [now])[..|times|] == times;
    if start < now <= start + limit.window {
      LiveCounts(times, start, start + limit.window);
      LiveCounts(times, start, now);
      NarrowerHoldsLess(times, start, now, now - limit.window, now);
    }
  }

  lemma StepStaysUnder(s: State, limit: Limit, r: Request, start: int)
    requires Inv(s, limit, r.now)
    requires InWindow(s.accepted, start, start + limit.window) <= limit.max
    ensures InWindow(Step(s, limit, r).accepted, start, start + limit.window) <= limit.max
  {
    StepGrows(s, limit, r);
    DecidesByCount(s, limit, r);
    if !Decide(s.entry, limit, r).0 { PushStaysUnder(s.accepted, r.now, start, limit); }
  }

  /** No half-open interval of `window` seconds, wherever it starts, holds more than `max`
   *  accepted requests. */
  lemma {:induction false} NoWindowOverflows(limit: Limit, trace: seq<Request>, start: int)
    requires Forward(trace)
    ensures InWindow(Run(limit, trace).accepted, start, start + limit.window) <= limit.max
  {
    if trace != [] {
      var front, r := trace[..|trace| - 1], trace[|trace| - 1];
      NoWindowOverflows(limit, front, start);
      RunKeeps(limit, front, r.now);
      StepStaysUnder(Run(limit, front), limit, r, start);
    }
  }

  lemma StepGrows(s: State, limit: Limit, r: Request)
    ensures var t := Step(s, limit, r); var refused := Decide(s.entry, limit, r).0;
      && t.refused == s.refused + [refused]
      && t.accepted == if refused then s.accepted else s.accepted + [r.now]
  {
    assert s.accepted + [] == s.accepted;
  }

  lemma SameAnswer(s: State, t: State, limit: Limit, r: Request, q: Request)
    requires Inv(s, limit, r.now) && Inv(t, limit, q.now) && r.now == q.now
    requires s.refused == t.refused && s.accepted == t.accepted
    ensures Step(s, limit, r).refused == Step(t, limit, q).refused
    ensures Step(s, limit, r).accepted == Step(t, limit, q).accepted
  {
    DecidesByCount(s, limit, r);
    DecidesByCount(t, limit, q);
    StepGrows(s, limit, r);
    StepGrows(t, limit, q);
  }

  ghost predicate SameTimes(trace: seq<Request>, other: seq<Request>) {
    |trace| == |other| && forall i :: 0 <= i < |trace| ==> trace[i].now == other[i].now
  }

  /** What the store drops never changes an answer: two traces with the same times get the
   *  same answers and let the same requests through. */
  lemma {:induction false} ExpiryChangesNothing(limit: Limit, trace: seq<Request>, other: seq<Request>)
    requires Forward(trace) && SameTimes(trace, other)
    ensures Run(limit, trace).refused == Run(limit, other).refused
    ensures Run(limit, trace).accepted == Run(limit, other).accepted
  {
    if trace != [] {
      var n := |trace| - 1;
      ExpiryChangesNothing(limit, trace[..n], other[..n]);
      RunKeeps(limit, trace[..n], trace[n].now);
      RunKeeps(limit, other[..n], other[n].now);
      SameAnswer(Run(limit, trace[..n]), Run(limit, other[..n]), limit, trace[n], other[n]);
    }
  }

  // ------------------------------------------------------------------ the object

  class Limiter {
    const limit: Limit
    var entry: Option<Entry>

    constructor (limit: Limit)
      ensures this.limit == limit && entry == None
    {
      this.limit, entry := limit, None;
    }

    method RateLimit(now: int, purged: bool) returns (refused: bool)
      modifies this
      ensures (refused, entry) == Decide(old(entry), limit, Request(now, purged))
    {
      var raw: seq<int> := [];
      if entry.Some? && !(purged && now >= entry.value.expiresAt) { raw := entry.value.times; }
      var cutoff := now - limit.window;
      var times := [];
      for i := 0 to |raw|
        invariant times == Live(raw[..i], cutoff)
        invariant entry == old(entry)
      {
        assert raw[..i + 1][..i] == raw[..i];
        if raw[i] > cutoff { times := times + [raw[i]]; }
      }
      assert raw[..|raw|] == raw;
      if |times| >= limit.max { return true; }
      entry := Some(Entry(times + [now], now + 2 * limit.window));
      return false;
    }
  }
}
