/** Keeping an agent's history within its token budget: summarise the older half, or, when
 *  the summary fails, drop the oldest turns. */
module Compaction {
  import opened Wrappers

  const HISTORY_TOKEN_BUDGET: nat := 100_000

  // A turn, and its token count if it is known.
  datatype Turn = Turn(content: string, tokens: Option<nat>)

  // A quarter of the length, rounded up, where the count is not known.
  function TokensOf(t: Turn): nat { if t.tokens.Some? then t.tokens.value else (|t.content| + 3) / 4 }

  function Estimate(h: seq<Turn>): nat {
    if h == [] then 0 else TokensOf(h[0]) + Estimate(h[1..])
  }

  // At most seven tenths of the budget.
  predicate Fits(tokens: int) { 10 * tokens <= 7 * HISTORY_TOKEN_BUDGET }

  // The last `n` turns.
  function Newest(h: seq<Turn>, n: nat): seq<Turn>
    requires n <= |h|
  {
    h[|h| - n..]
  }

  // What dropping stops at.
  predicate SmallEnough(h: seq<Turn>) { Fits(Estimate(h)) || |h| <= 4 }

  // The tokens of two stretches add up.
  lemma {:induction false} EstimateOfConcat(a: seq<Turn>, b: seq<Turn>)
    ensures Estimate(a + b) == Estimate(a) + Estimate(b)
  {
    if a == [] {
      assert a + b == b;
    } else {
      assert (a + b)[0] == a[0] && (a + b)[1..] == a[1..] + b;
      EstimateOfConcat(a[1..], b);
    }
  }

  /** A turn counts with its own token count, or else with the least number of tokens that has
   *  room for its text at four characters each. */
  lemma EstimateOfOne(t: Turn)
    ensures t.tokens.Some? ==> Estimate([t]) == t.tokens.value
    ensures t.tokens.None? ==> |t.content| <= 4 * Estimate([t]) < |t.content| + 4
  {
    assert [t][1..] == [];
  }

  // The bounds in figures.
  lemma FitsExactlyUpTo(tokens: int)
    ensures Fits(tokens) <==> tokens <= 70_000
  {
  }

  lemma {:induction false} NewerIsCheaper(h: seq<Turn>, n: nat, m: nat)
    requires n <= m <= |h|
    ensures Estimate(Newest(h, n)) <= Estimate(Newest(h, m))
    decreases m
  {
    if n < m {
      assert Newest(h, m)[1..] == Newest(h, m - 1);
      NewerIsCheaper(h, n, m - 1);
    }
  }

  method EstTokens(h: seq<Turn>) returns (sum: int)
    ensures sum == Estimate(h)
  {
    sum := 0;
    for i := 0 to |h|
      invariant sum + Estimate(h[i..]) == Estimate(h)
    {
      sum := sum + TokensOf(h[i]);
    }
  }

  /** The fallback: what is left are the newest turns, as many as fit, but never fewer than
   *  four of them if there were that many. */
  method Truncate(h: seq<Turn>) returns (trimmed: seq<Turn>)
    ensures |trimmed| <= |h| && trimmed == Newest(h, |trimmed|)
    ensures SmallEnough(trimmed)
    ensures forall n :: |trimmed| < n <= |h| ==> !SmallEnough(Newest(h, n))
    ensures |h| >= 4 ==> |trimmed| >= 4
    ensures |h| <= 4 ==> trimmed == h
  {
    var est := EstTokens(h);
    trimmed := h;
    while 10 * est > 7 * HISTORY_TOKEN_BUDGET && |trimmed| > 4
      invariant |trimmed| <= |h| && trimmed == Newest(h, |trimmed|)
      invariant est == Estimate(trimmed)
      invariant |h| >= 4 ==> |trimmed| >= 4
      invariant |h| <= 4 ==> trimmed == h
      invariant forall n :: |trimmed| < n <= |h| ==> !SmallEnough(Newest(h, n))
      decreases |trimmed|
    {
      var dropped := trimmed[0];
      assert trimmed[1..] == Newest(h, |trimmed| - 1);
      trimmed := trimmed[1..];
      est := est - TokensOf(dropped);
    }
  }

  /** The fallback brings the history within seven tenths of the budget exactly when its
   *  newest four turns already are. */
  lemma TruncationFitsExactlyWhenFourDo(h: seq<Turn>, trimmed: seq<Turn>)
    requires |h| >= 4 && 4 <= |trimmed| <= |h| && trimmed == Newest(h, |trimmed|) && SmallEnough(trimmed)
    ensures Fits(Estimate(trimmed)) <==> Fits(Estimate(Newest(h, 4)))
  {
    NewerIsCheaper(h, 4, |trimmed|);
  }

  /** Compaction with `summary` as the outcome of the model call.  The newest half of a
   *  history is never touched by a summary, and the newest turn survives either way. */
  method CompactIfNeeded(h: seq<Turn>, summary: Option<Turn>) returns (r: seq<Turn>)
    ensures Estimate(h) < HISTORY_TOKEN_BUDGET || |h| <= 1 ==> r == h
    ensures !(Estimate(h) < HISTORY_TOKEN_BUDGET || |h| <= 1) && summary.Some? ==>
      r == [summary.value] + Newest(h, |h| - |h| / 2)
    ensures !(Estimate(h) < HISTORY_TOKEN_BUDGET || |h| <= 1) && summary.None? ==>
      && |r| <= |h| && r == Newest(h, |r|) && SmallEnough(r)
      && forall n :: |r| < n <= |h| ==> !SmallEnough(Newest(h, n))
    ensures h != [] ==> r != [] && r[|r| - 1] == h[|h| - 1]
  {
    var est := EstTokens(h);
    if est < HISTORY_TOKEN_BUDGET { return h; }
    var splitAt := |h| / 2;
    var toSummarize, keep := h[..splitAt], h[splitAt..];
    if |toSummarize| == 0 { return h; }
    if summary.Some? { return [summary.value] + keep; }
    r := Truncate(h);
  }
}
