/**
 The limit on the messages of one agent connection. Tokens are counted in thousandths, so that the
 refill of 30 tokens a second is 30 units a millisecond, in whole numbers.
 */
module TokenBucket {
  const BURST := 60000
  const RATE := 30     // units per millisecond
  const COST := 1000

  function Min(a: int, b: int): int {
    if a <= b then a else b
  }

  /** Message `i` came at time `arrivals[i]`. */
  ghost predicate Timed(arrivals: seq<int>) {
    forall i, j :: 0 <= i <= j < |arrivals| ==> arrivals[i] <= arrivals[j]
  }

  function Spend(tokens: int): int {
    if tokens >= COST then tokens - COST else tokens
  }

  /** What the bucket holds when message `k` comes. */
  function TokensAt(arrivals: seq<int>, k: nat): int
    requires k < |arrivals|
  {
    if k == 0 then BURST
    else Min(BURST, Spend(TokensAt(arrivals, k - 1)) + RATE * (arrivals[k] - arrivals[k - 1]))
  }

  predicate Accepted(arrivals: seq<int>, k: nat)
    requires k < |arrivals|
  {
    TokensAt(arrivals, k) >= COST
  }

  /** How many messages from `i` on and before `k` are accepted. */
  function Count(arrivals: seq<int>, i: nat, k: nat): nat
    requires i <= k <= |arrivals|
  {
    if i == k then 0 else Count(arrivals, i, k - 1) + (if Accepted(arrivals, k - 1) then 1 else 0)
  }

  /** `n` messages are too many for the time from message `i` to message `k`: more than 60 and 30 for each second. */
  predicate TooMany(arrivals: seq<int>, i: nat, k: nat, n: nat)
    requires i <= k < |arrivals|
  {
    1000 * n > 60_000 + 30 * (arrivals[k] - arrivals[i])
  }

  /** The messages from `i` to `k` are too many for the time they came in. */
  predicate Crowded(arrivals: seq<int>, i: nat, k: nat)
    requires i <= k < |arrivals|
  {
    TooMany(arrivals, i, k, k - i + 1)
  }

  lemma {:induction false} TokensAreBounded(arrivals: seq<int>, i: nat, k: nat)
    requires i <= k < |arrivals|
    ensures TokensAt(arrivals, k) <= BURST + RATE * (arrivals[k] - arrivals[i]) - COST * Count(arrivals, i, k)
    ensures TokensAt(arrivals, k) <= BURST
  {
    if i < k {
      TokensAreBounded(arrivals, i, k - 1);
    }
  }

  /** The bound is met from the last message that found the bucket full. */
  lemma {:induction false} LastFull(arrivals: seq<int>, k: nat) returns (i: nat)
    requires k < |arrivals|
    ensures i <= k
    ensures TokensAt(arrivals, k) == BURST + RATE * (arrivals[k] - arrivals[i]) - COST * Count(arrivals, i, k)
  {
    if k == 0 || TokensAt(arrivals, k) == BURST {
      i := k;
    } else {
      i := LastFull(arrivals, k - 1);
    }
  }

  /** A message is rejected exactly when accepting it would put too many accepted messages in some stretch of time. */
  lemma RejectedIffTooMany(arrivals: seq<int>, k: nat)
    requires k < |arrivals|
    ensures !Accepted(arrivals, k) <==> exists i :: 0 <= i <= k && TooMany(arrivals, i, k, Count(arrivals, i, k) + 1)
  {
    if !Accepted(arrivals, k) {
      var i := LastFull(arrivals, k);
      assert TooMany(arrivals, i, k, Count(arrivals, i, k) + 1);
    }
    forall i | 0 <= i <= k && TooMany(arrivals, i, k, Count(arrivals, i, k) + 1) ensures !Accepted(arrivals, k) {
      TokensAreBounded(arrivals, i, k);
    }
  }

  /** In no stretch of time are more than 60 messages, and 30 for each second of it, accepted. */
  lemma {:induction false} AtMostRate(arrivals: seq<int>, i: nat, k: nat)
    requires Timed(arrivals) && i <= k < |arrivals|
    ensures COST * Count(arrivals, i, k + 1) <= BURST + RATE * (arrivals[k] - arrivals[i])
    decreases k
  {
    TokensAreBounded(arrivals, i, k);
    if !Accepted(arrivals, k) && i < k {
      AtMostRate(arrivals, i, k - 1);
    }
  }

  /** The same for any window, given by its bounds in time. */
  lemma AtMostRateInWindow(arrivals: seq<int>, i: nat, j: nat, from: int, length: nat)
    requires Timed(arrivals) && i <= j <= |arrivals|
    requires forall k :: i <= k < j ==> from <= arrivals[k] <= from + length
    ensures 1000 * Count(arrivals, i, j) <= 60_000 + 30 * length
  {
    if i < j {
      AtMostRate(arrivals, i, j - 1);
    }
  }

  /** A stream is never rejected if and only if no stretch of it has too many messages. */
  lemma NeverRejectedIff(arrivals: seq<int>)
    ensures (forall k :: 0 <= k < |arrivals| ==> Accepted(arrivals, k)) <==>
            (forall i, k :: 0 <= i <= k < |arrivals| ==> !Crowded(arrivals, i, k))
  {
    if forall k :: 0 <= k < |arrivals| ==> Accepted(arrivals, k) {
      forall i, k | 0 <= i <= k < |arrivals| ensures !Crowded(arrivals, i, k) {
        AllCount(arrivals, i, k);
        TokensAreBounded(arrivals, i, k);
        assert Accepted(arrivals, k);
      }
    }
    if forall i, k :: 0 <= i <= k < |arrivals| ==> !Crowded(arrivals, i, k) {
      forall k | 0 <= k < |arrivals| ensures Accepted(arrivals, k) {
        var i := LastFull(arrivals, k);
        CountIsBounded(arrivals, i, k);
        assert !Crowded(arrivals, i, k);
      }
    }
  }

  lemma {:induction false} AllCount(arrivals: seq<int>, i: nat, k: nat)
    requires i <= k <= |arrivals| && forall j :: i <= j < k ==> Accepted(arrivals, j)
    ensures Count(arrivals, i, k) == k - i
  {
    if i < k {
      AllCount(arrivals, i, k - 1);
    }
  }

  lemma {:induction false} CountIsBounded(arrivals: seq<int>, i: nat, k: nat)
    requires i <= k <= |arrivals|
    ensures Count(arrivals, i, k) <= k - i
  {
    if i < k {
      CountIsBounded(arrivals, i, k - 1);
    }
  }

  /** A later message changes nothing for the earlier ones. */
  lemma {:induction false} EarlierStay(arrivals: seq<int>, now: int, k: nat)
    requires k < |arrivals|
    ensures TokensAt(arrivals + [now], k) == TokensAt(arrivals, k)
  {
    if k > 0 {
      EarlierStay(arrivals, now, k - 1);
    }
  }

  class TokenBucket {
    var tokens: int
    var lastRefill: int
    ghost var arrivals: seq<int>

    ghost predicate Valid()
      reads this
    {
      if arrivals == [] then tokens == BURST
      else lastRefill == arrivals[|arrivals| - 1] && tokens == Spend(TokensAt(arrivals, |arrivals| - 1))
    }

    constructor (now: int)
      ensures Valid() && arrivals == [] && lastRefill == now
    {
      tokens, lastRefill, arrivals := BURST, now, [];
    }

    method Consume(now: int) returns (accepted: bool)
      requires Valid() && lastRefill <= now
      modifies this
      ensures Valid() && lastRefill == now && arrivals == old(arrivals) + [now]
      ensures accepted == Accepted(arrivals, |arrivals| - 1)
    {
      if arrivals != [] {
        EarlierStay(arrivals, now, |arrivals| - 1);
      }
      arrivals := arrivals + [now];
      var elapsed := now - lastRefill;
      tokens := Min(BURST, tokens + elapsed * RATE);
      lastRefill := now;
      if tokens >= COST {
        tokens := tokens - COST;
        return true;
      }
      return false;
    }
  }
}
