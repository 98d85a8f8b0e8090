/**
 * RemoteRequestRateLimiter of src/main/services/remote-gateway.ts: a token bucket with a clock
 * that may go backwards, against the window formulation of its promise. Over the reals.
 */
module RateLimiter {

  const BURST := 60.0
  const PER_MINUTE := 120.0

  datatype Bucket = Bucket(capacity: real, rate: real, tokens: real, last: real) {
    ghost predicate Valid() {
      capacity >= 0.0 && rate >= 0.0 && tokens <= capacity
    }
  }

  function Later(a: real, b: real): real {
    if a > b then a else b
  }

  /** The balance a request at clock reading `now` finds. */
  function Refilled(b: Bucket, now: real): real {
    var elapsed := Later(0.0, now - b.last);
    var filled := b.tokens + elapsed * b.rate;
    if filled < b.capacity then filled else b.capacity
  }

  /** Refilling pays the rate for the time by which the clock moves forward. */
  lemma RefillPays(b: Bucket, now: real)
    ensures Later(0.0, now - b.last) * b.rate == b.rate * Later(b.last, now) - b.rate * b.last
  {
    if now > b.last {
      assert (now - b.last) * b.rate == b.rate * now - b.rate * b.last;
    }
  }

  function Consumed(b: Bucket, now: real): (Bucket, bool) {
    var balance := Refilled(b, now);
    var accepted := balance >= 1.0;
    (b.(tokens := if accepted then balance - 1.0 else balance, last := Later(b.last, now)), accepted)
  }

  class RemoteRequestRateLimiter {
    const capacity: real
    const refillPerMillisecond: real
    var availableTokens: real
    var lastRefillAt: real

    constructor (capacity: real, refillPerMinute: real, startedAt: real)
      ensures State() == Bucket(capacity, refillPerMinute / 60000.0, capacity, startedAt)
    {
      this.capacity := capacity;
      availableTokens := capacity;
      lastRefillAt := startedAt;
      refillPerMillisecond := refillPerMinute / 60000.0;
    }

    ghost function State(): Bucket
      reads this
    {
      Bucket(capacity, refillPerMillisecond, availableTokens, lastRefillAt)
    }

    method Consume(now: real) returns (accepted: bool)
      modifies this
      ensures (State(), accepted) == Consumed(old(State()), now)
    {
      var elapsed := if now - lastRefillAt > 0.0 then now - lastRefillAt else 0.0;
      var filled := availableTokens + elapsed * refillPerMillisecond;
      availableTokens := if filled < capacity then filled else capacity;
      lastRefillAt := if lastRefillAt > now then lastRefillAt else now;
      if availableTokens < 1.0 {
        return false;
      }
      availableTokens := availableTokens - 1.0;
      return true;
    }
  }

  // ---- runs: the same bucket asked at the clock readings `clocks`, in order ----

  /** The bucket after the first requests of a run. */
  function After(start: Bucket, clocks: seq<real>): Bucket {
    if clocks == [] then start
    else Consumed(After(start, clocks[..|clocks| - 1]), clocks[|clocks| - 1]).0
  }

  predicate Accepted(start: Bucket, clocks: seq<real>, i: nat)
    requires i < |clocks|
  {
    Consumed(After(start, clocks[..i]), clocks[i]).1
  }

  /** How many of the requests from..until-1 were accepted. */
  function Count(start: Bucket, clocks: seq<real>, from: nat, until: nat): nat
    requires from <= until <= |clocks|
    decreases until
  {
    if from == until then 0
    else Count(start, clocks, from, until - 1) + (if Accepted(start, clocks, until - 1) then 1 else 0)
  }

  /** The time of request `i`: the greatest reading so far, so that time never goes back. */
  function Time(start: Bucket, clocks: seq<real>, i: nat): real
    requires i < |clocks|
  {
    Later(if i == 0 then start.last else Time(start, clocks, i - 1), clocks[i])
  }

  /** What the window opening at request `i` leaves for request `k`. */
  function Window(start: Bucket, clocks: seq<real>, i: nat, k: nat): real
    requires i <= k < |clocks|
  {
    start.capacity + Paid(start, clocks, k) - Paid(start, clocks, i) - Count(start, clocks, i, k) as real
  }

  function Paid(start: Bucket, clocks: seq<real>, i: nat): real
    requires i < |clocks|
  {
    Pay(start.rate, Time(start, clocks, i))
  }

  function Pay(rate: real, time: real): real {
    rate * time
  }

  /** The allowance of the window from request `i` to request `k`: burst plus rate times length. */
  function Allowance(start: Bucket, clocks: seq<real>, i: nat, k: nat): real
    requires i <= k < |clocks|
  {
    start.capacity + start.rate * (Time(start, clocks, k) - Time(start, clocks, i))
  }

  lemma Distribute(r: real, s: real, t: real)
    ensures r * (t - s) == r * t - r * s
  {
  }

  lemma PaidIsAllowed(start: Bucket, clocks: seq<real>, i: nat, k: nat)
    requires i <= k < |clocks|
    ensures start.capacity + Paid(start, clocks, k) - Paid(start, clocks, i) == Allowance(start, clocks, i, k)
  {
    Distribute(start.rate, Time(start, clocks, i), Time(start, clocks, k));
  }

  lemma WindowIsAllowance(start: Bucket, clocks: seq<real>, i: nat, k: nat)
    requires i <= k < |clocks|
    ensures Window(start, clocks, i, k) == Allowance(start, clocks, i, k) - Count(start, clocks, i, k) as real
  {
    PaidIsAllowed(start, clocks, i, k);
  }

  function Balance(start: Bucket, clocks: seq<real>, k: nat): real
    requires k < |clocks|
  {
    Refilled(After(start, clocks[..k]), clocks[k])
  }

  lemma {:induction false} BucketKept(start: Bucket, clocks: seq<real>)
    requires start.Valid()
    ensures After(start, clocks).Valid()
    ensures After(start, clocks).capacity == start.capacity && After(start, clocks).rate == start.rate
    ensures clocks != [] ==> After(start, clocks).last == Time(start, clocks, |clocks| - 1)
    ensures clocks == [] ==> After(start, clocks).last == start.last
    decreases |clocks|
  {
    if clocks != [] {
      var n := |clocks| - 1;
      BucketKept(start, clocks[..n]);
      if n > 0 {
        TimePrefix(start, clocks, n, n - 1);
      }
    }
  }

  lemma {:induction false} TimePrefix(start: Bucket, clocks: seq<real>, n: nat, i: nat)
    requires i < n <= |clocks|
    ensures Time(start, clocks[..n], i) == Time(start, clocks, i)
    decreases i
  {
    if i > 0 {
      TimePrefix(start, clocks, n, i - 1);
    }
  }

  function Cost(start: Bucket, clocks: seq<real>, k: nat): real
    requires k < |clocks|
  {
    if Accepted(start, clocks, k) then 1.0 else 0.0
  }

  /** One step of the balance: refill since the previous request, less what that request took. */
  lemma BalanceStep(start: Bucket, clocks: seq<real>, k: nat)
    requires start.Valid() && k + 1 < |clocks|
    ensures var grown := Balance(start, clocks, k) - Cost(start, clocks, k)
                         + Paid(start, clocks, k + 1) - Paid(start, clocks, k);
            Balance(start, clocks, k + 1) == if grown < start.capacity then grown else start.capacity
  {
    AfterStep(start, clocks, k);
    PaidIs(start, clocks, k);
    TwoRefills(After(start, clocks[..k]), clocks[k], clocks[k + 1], Paid(start, clocks, k), Paid(start, clocks, k + 1));
  }

  lemma PaidIs(start: Bucket, clocks: seq<real>, k: nat)
    requires start.Valid() && k + 1 < |clocks|
    ensures var b, c := After(start, clocks[..k]), After(start, clocks[..k + 1]);
            && b.capacity == start.capacity
            && Paid(start, clocks, k) == Pay(b.rate, c.last)
            && Paid(start, clocks, k + 1) == Pay(b.rate, Later(c.last, clocks[k + 1]))
  {
    BucketKept(start, clocks[..k]);
    BucketKept(start, clocks[..k + 1]);
    TimePrefix(start, clocks, k + 1, k);
  }

  lemma AfterStep(start: Bucket, clocks: seq<real>, k: nat)
    requires k < |clocks|
    ensures After(start, clocks[..k + 1]) == Consumed(After(start, clocks[..k]), clocks[k]).0
  {
    assert clocks[..k + 1][..k] == clocks[..k];
  }

  lemma TwoRefills(b: Bucket, now: real, next: real, paid: real, paidNext: real)
    requires var c := Consumed(b, now).0;
             paid == Pay(b.rate, c.last) && paidNext == Pay(b.rate, Later(c.last, next))
    ensures var grown := Refilled(b, now) - (if Consumed(b, now).1 then 1.0 else 0.0) + paidNext - paid;
            Refilled(Consumed(b, now).0, next) == if grown < b.capacity then grown else b.capacity
  {
    RefillPays(Consumed(b, now).0, next);
  }

  lemma FirstBalance(start: Bucket, clocks: seq<real>)
    requires start.Valid() && start.tokens == start.capacity && clocks != []
    ensures Balance(start, clocks, 0) == start.capacity
  {
    assert Later(0.0, clocks[0] - start.last) * start.rate >= 0.0;
  }

  lemma WindowStep(start: Bucket, clocks: seq<real>, i: nat, k: nat)
    requires i <= k && k + 1 < |clocks|
    ensures Window(start, clocks, i, k + 1)
         == Window(start, clocks, i, k) - Cost(start, clocks, k) + Paid(start, clocks, k + 1) - Paid(start, clocks, k)
  {
  }

  ghost predicate LeastWindow(start: Bucket, clocks: seq<real>, k: nat, least: real)
    requires k < |clocks|
  {
    && (forall i: nat :: i <= k ==> least <= Window(start, clocks, i, k))
    && (exists i: nat :: i <= k && least == Window(start, clocks, i, k))
  }

  lemma LeastWindowStep(start: Bucket, clocks: seq<real>, k: nat, least: real, next: real)
    requires k + 1 < |clocks| && LeastWindow(start, clocks, k, least)
    requires var grown := least - Cost(start, clocks, k) + Paid(start, clocks, k + 1) - Paid(start, clocks, k);
             next == if grown < start.capacity then grown else start.capacity
    ensures LeastWindow(start, clocks, k + 1, next)
  {
    var n := k + 1;
    assert Window(start, clocks, n, n) == start.capacity;
    forall i: nat | i <= k
      ensures next <= Window(start, clocks, i, n)
    {
      WindowStep(start, clocks, i, k);
    }
    var i: nat :| i <= k && least == Window(start, clocks, i, k);
    WindowStep(start, clocks, i, k);
    var at := if next == start.capacity then n else i;
    assert next == Window(start, clocks, at, n);
  }

  /** The balance request `k` finds is the least that any window ending at it leaves. */
  lemma {:induction false} BalanceIsLeastWindow(start: Bucket, clocks: seq<real>, k: nat)
    requires start.Valid() && start.tokens == start.capacity && k < |clocks|
    ensures LeastWindow(start, clocks, k, Balance(start, clocks, k))
    decreases k
  {
    if k == 0 {
      FirstBalance(start, clocks);
      assert Window(start, clocks, 0, 0) == start.capacity;
    } else {
      BalanceIsLeastWindow(start, clocks, k - 1);
      BalanceStep(start, clocks, k - 1);
      LeastWindowStep(start, clocks, k - 1, Balance(start, clocks, k - 1), Balance(start, clocks, k));
    }
  }

  lemma AcceptedIffBalance(start: Bucket, clocks: seq<real>, k: nat)
    requires k < |clocks|
    ensures Accepted(start, clocks, k) <==> Balance(start, clocks, k) >= 1.0
  {
  }

  /** The window from request `i` has room for request `k` on top of what it already holds. */
  predicate HasRoom(start: Bucket, clocks: seq<real>, i: nat, k: nat)
    requires i <= k < |clocks|
  {
    Count(start, clocks, i, k) as real + 1.0 <= Allowance(start, clocks, i, k)
  }

  /**
   * A request is accepted exactly when, counting it, every window that ends at it stays within
   * the burst plus the refill over the window's length.
   */
  lemma AcceptedIffWindowsHold(start: Bucket, clocks: seq<real>, k: nat)
    requires start.Valid() && start.tokens == start.capacity && k < |clocks|
    ensures Accepted(start, clocks, k) <==>
            forall i: nat :: i <= k ==> HasRoom(start, clocks, i, k)
  {
    BalanceIsLeastWindow(start, clocks, k);
    AcceptedIffBalance(start, clocks, k);
    forall i: nat | i <= k
      ensures HasRoom(start, clocks, i, k) <==> 1.0 <= Window(start, clocks, i, k)
    {
      WindowIsAllowance(start, clocks, i, k);
    }
  }

  /** So no window of a run ever holds more than its allowance. */
  lemma {:induction false} WindowBound(start: Bucket, clocks: seq<real>, i: nat, k: nat)
    requires start.Valid() && start.tokens == start.capacity && i <= k < |clocks|
    ensures Count(start, clocks, i, k + 1) as real <= Allowance(start, clocks, i, k)
    decreases k
  {
    if Accepted(start, clocks, k) {
      assert Count(start, clocks, i, k + 1) == Count(start, clocks, i, k) + 1;
      AcceptedIffWindowsHold(start, clocks, k);
      assert HasRoom(start, clocks, i, k);
    } else {
      assert Count(start, clocks, i, k + 1) == Count(start, clocks, i, k);
      if i < k {
        WindowBound(start, clocks, i, k - 1);
        AllowanceGrows(start, clocks, i, k - 1);
      } else {
        EmptyWindow(start, clocks, k);
      }
    }
  }

  lemma EmptyWindow(start: Bucket, clocks: seq<real>, k: nat)
    requires k < |clocks|
    ensures Allowance(start, clocks, k, k) == start.capacity && Count(start, clocks, k, k) == 0
  {
    assert Time(start, clocks, k) - Time(start, clocks, k) == 0.0;
  }

  lemma AllowanceGrows(start: Bucket, clocks: seq<real>, i: nat, k: nat)
    requires start.Valid() && i <= k && k + 1 < |clocks|
    ensures Allowance(start, clocks, i, k) <= Allowance(start, clocks, i, k + 1)
  {
    ProductMonotone(start.rate, Time(start, clocks, k) - Time(start, clocks, i), Time(start, clocks, k + 1) - Time(start, clocks, i));
  }

  lemma ProductMonotone(a: real, b: real, c: real)
    requires a >= 0.0 && b <= c
    ensures a * b <= a * c
  {
    Distribute(a, b, c);
    Product(a, c - b);
  }

  lemma Product(a: real, b: real)
    requires a >= 0.0 && b >= 0.0
    ensures a * b >= 0.0
  {
    if a > 0.0 && b > 0.0 {
      assert a * b > 0.0;
    }
  }

  /** A reading behind the greatest one so far refills nothing and does not move the clock. */
  lemma BackwardsClock(b: Bucket, now: real)
    requires b.Valid() && now <= b.last
    ensures Consumed(b, now) == Consumed(b, b.last) && Consumed(b, now).0.last == b.last
  {
  }
}
