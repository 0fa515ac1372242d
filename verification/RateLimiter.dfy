/**
 The token-bucket bandwidth limiter. Time is in seconds and amounts in bytes, both real numbers; rounding
 is not modelled.
 */
module RateLimit {

  /** One look at the bucket: at time `now` somebody asks for `n` bytes. */
  datatype Attempt = Attempt(now: real, n: int)

  datatype Bucket = Bucket(rate: real, burst: real, tokens: real, last: real)
  {
    predicate Valid() {
      0.0 < rate && 0.0 <= tokens <= burst
    }

    /** Add what has accrued since the last look, up to the size of the bucket. */
    function Refill(now: real): Bucket {
      var filled := tokens + Accrued(rate, last, now);
      this.(tokens := if filled > burst then burst else filled, last := now)
    }

    function Grants(a: Attempt): bool {
      Refill(a.now).tokens >= a.n as real
    }

    /** Refill, and take the bytes if they are there. */
    function After(a: Attempt): Bucket {
      var b := Refill(a.now);
      if Grants(a) then b.(tokens := b.tokens - a.n as real) else b
    }
  }

  /** A limiter for `bytesPerSec` starts full, with a bucket of one second's worth. */
  function NewBucket(bytesPerSec: int, now: real): Bucket
    requires 0 < bytesPerSec
  {
    Bucket(bytesPerSec as real, bytesPerSec as real, bytesPerSec as real, now)
  }

  /**
   Whether a limiter for `limitKBps` ever lets a request for `size` bytes through: there is none for a
   limit of zero or less, and the bucket of any other holds one second's worth.
   */
  predicate LetsThrough(limitKBps: int, size: int) {
    limitKBps <= 0 || size <= limitKBps * 1024
  }

  // ---------------------------------------------------------------- histories of attempts

  /** Times never go back and requests are positive; anybody may ask. */
  predicate IsWindow(b: Bucket, attempts: seq<Attempt>) {
    && (forall i :: 0 <= i < |attempts| ==> attempts[i].n > 0 && b.last <= attempts[i].now)
    && (forall i, j :: 0 <= i < j < |attempts| ==> attempts[i].now <= attempts[j].now)
  }

  function Final(b: Bucket, attempts: seq<Attempt>): Bucket {
    if attempts == [] then b else Final(b, attempts[..|attempts| - 1]).After(attempts[|attempts| - 1])
  }

  /** Bytes granted over a history. */
  function Granted(b: Bucket, attempts: seq<Attempt>): real {
    if attempts == [] then 0.0
    else
      var n := |attempts| - 1;
      Granted(b, attempts[..n]) + if Final(b, attempts[..n]).Grants(attempts[n]) then attempts[n].n as real else 0.0
  }

  /** What `rate` brings in between two times. */
  function Accrued(rate: real, from: real, to: real): real {
    (to - from) * rate
  }

  lemma NoAttempts(b: Bucket)
    ensures IsWindow(b, []) && Final(b, []) == b && Granted(b, []) == 0.0
  {
  }

  lemma GrantedMore(b: Bucket, attempts: seq<Attempt>, a: Attempt)
    ensures Final(b, attempts + [a]) == Final(b, attempts).After(a)
    ensures Granted(b, attempts + [a]) == Granted(b, attempts) + if Final(b, attempts).Grants(a) then a.n as real else 0.0
    ensures IsWindow(b, attempts) && 0 < a.n && (if attempts == [] then b.last else attempts[|attempts| - 1].now) <= a.now ==>
              IsWindow(b, attempts + [a])
  {
    assert (attempts + [a])[..|attempts|] == attempts;
  }

  lemma AccruedAdds(rate: real, t0: real, t1: real, t2: real)
    ensures Accrued(rate, t0, t1) + Accrued(rate, t1, t2) == Accrued(rate, t0, t2)
  {
  }

  /** Nothing is created: what was granted and what is left never exceed what was there and what has accrued. */
  lemma TokensConserved(b: Bucket, attempts: seq<Attempt>)
    requires b.Valid() && IsWindow(b, attempts)
    ensures var f := Final(b, attempts);
            && f.Valid() && f.rate == b.rate && f.burst == b.burst
            && f.last == (if attempts == [] then b.last else attempts[|attempts| - 1].now)
            && Granted(b, attempts) + f.tokens <= b.tokens + (f.last - b.last) * b.rate
  {
    hide *;
    TokensKept(b, attempts);
    AccruedIsRateTimesTime(b.rate, b.last, Final(b, attempts).last);
  }

  lemma AccruedIsRateTimesTime(rate: real, from: real, to: real)
    ensures Accrued(rate, from, to) == (to - from) * rate
  {
  }

  lemma {:induction false} TokensKept(b: Bucket, attempts: seq<Attempt>)
    requires b.Valid() && IsWindow(b, attempts)
    ensures var f := Final(b, attempts);
            && f.Valid() && f.rate == b.rate && f.burst == b.burst
            && f.last == (if attempts == [] then b.last else attempts[|attempts| - 1].now)
            && Granted(b, attempts) + f.tokens <= b.tokens + Accrued(b.rate, b.last, f.last)
  {
    if attempts != [] {
      var n := |attempts| - 1;
      TokensKept(b, attempts[..n]);
      var f := Final(b, attempts[..n]);
      RefillBound(f, attempts[n].now);
      AccruedAdds(b.rate, b.last, f.last, attempts[n].now);
    }
  }

  lemma RefillBound(b: Bucket, now: real)
    requires b.Valid() && b.last <= now
    ensures b.Refill(now).Valid()
    ensures b.tokens <= b.Refill(now).tokens <= b.tokens + Accrued(b.rate, b.last, now)
  {
    NonNegativeProduct(now - b.last, b.rate);
    assert 0.0 <= Accrued(b.rate, b.last, now);
  }

  lemma NonNegativeProduct(x: real, y: real)
    requires 0.0 <= x && 0.0 <= y
    ensures 0.0 <= x * y
  {
  }

  /**
   Over any stretch of any history, however many callers ask for however much, the bytes granted are at
   most one bucket plus the rate times the length of the stretch; the bucket stays between empty and full.
   */
  lemma BandwidthBound(b: Bucket, attempts: seq<Attempt>)
    requires b.Valid() && attempts != [] && IsWindow(b, attempts)
    ensures Granted(b, attempts) <= b.burst + (attempts[|attempts| - 1].now - attempts[0].now) * b.rate
    ensures 0.0 <= Final(b, attempts).tokens <= b.burst
  {
    hide *;
    BurstAndAccrued(b, attempts);
    AccruedIsRateTimesTime(b.rate, attempts[0].now, attempts[|attempts| - 1].now);
  }

  lemma BurstAndAccrued(b: Bucket, attempts: seq<Attempt>)
    requires b.Valid() && attempts != [] && IsWindow(b, attempts)
    ensures Granted(b, attempts) <= b.burst + Accrued(b.rate, attempts[0].now, attempts[|attempts| - 1].now)
    ensures 0.0 <= Final(b, attempts).tokens <= b.burst
  {
    FromFirstLook(b, attempts);
    hide Accrued, Granted, Final;
    assert b.Refill(attempts[0].now).tokens <= b.burst;
  }

  /** From the first look on: what was there then, and what has accrued since. */
  lemma FromFirstLook(b: Bucket, attempts: seq<Attempt>)
    requires b.Valid() && attempts != [] && IsWindow(b, attempts)
    ensures 0.0 <= Final(b, attempts).tokens <= b.burst
    ensures Granted(b, attempts) + Final(b, attempts).tokens
            <= b.Refill(attempts[0].now).tokens + Accrued(b.rate, attempts[0].now, attempts[|attempts| - 1].now)
  {
    RefillBound(b, attempts[0].now);
    SameFromRefilled(b, attempts);
    hide Accrued, Final, Granted;
    TokensKept(b.Refill(attempts[0].now), attempts);
  }

  /** A limiter for `bytesPerSec` lets through, in any time, at most that many bytes per second and one second's worth more. */
  lemma LimiterBound(bytesPerSec: int, start: real, attempts: seq<Attempt>)
    requires 0 < bytesPerSec && attempts != [] && IsWindow(NewBucket(bytesPerSec, start), attempts)
    ensures Granted(NewBucket(bytesPerSec, start), attempts)
            <= bytesPerSec as real + (attempts[|attempts| - 1].now - attempts[0].now) * bytesPerSec as real
  {
    hide Final, Granted, IsWindow;
    BandwidthBound(NewBucket(bytesPerSec, start), attempts);
  }

  lemma RefillTwice(b: Bucket, now: real)
    ensures b.Refill(now).Refill(now) == b.Refill(now)
  {
    assert Accrued(b.rate, now, now) == 0.0;
  }

  /** Looking at the bucket once more, at the time of the first attempt, changes nothing. */
  lemma {:induction false} SameFromRefilled(b: Bucket, attempts: seq<Attempt>)
    requires attempts != [] && b.Valid() && IsWindow(b, attempts)
    ensures var start := b.Refill(attempts[0].now);
            Final(start, attempts) == Final(b, attempts) && Granted(start, attempts) == Granted(b, attempts)
  {
    var n := |attempts| - 1;
    if n == 0 {
      assert attempts[..0] == [];
      RefillTwice(b, attempts[0].now);
    } else {
      SameFromRefilled(b, attempts[..n]);
    }
  }

  // ---------------------------------------------------------------- waiting

  /** A request larger than the bucket is never granted, at any time, by anyone. */
  lemma {:induction false} NeverGrantedAboveBurst(b: Bucket, attempts: seq<Attempt>, i: nat)
    requires b.Valid() && IsWindow(b, attempts) && i < |attempts|
    requires attempts[i].n as real > b.burst
    ensures !Final(b, attempts[..i]).Grants(attempts[i])
  {
    TokensConserved(b, attempts[..i]);
  }

  /** A request is granted at some time to a caller that is alone exactly when it fits the bucket. */
  lemma GrantedSometimeIff(b: Bucket, n: int)
    requires b.Valid() && 0 < n
    ensures (exists now :: b.last <= now && b.Grants(Attempt(now, n))) <==> n as real <= b.burst
  {
    if n as real <= b.burst {
      var now := b.last + b.burst / b.rate;
      assert (now - b.last) * b.rate == b.burst;
      NonNegativeProduct(b.burst, 1.0 / b.rate);
      assert 0.0 <= b.burst / b.rate;
      assert b.Grants(Attempt(now, n));
    }
  }

  /**
   A chunk waits for its whole size at once. Whatever anybody has asked for before, it is granted at some
   later time exactly when the limiter lets its size through.
   */
  lemma ChunkIsSentIff(limitKBps: int, size: int, now: real, attempts: seq<Attempt>)
    requires 0 < limitKBps && 0 < size && IsWindow(NewBucket(limitKBps * 1024, now), attempts)
    ensures var b := Final(NewBucket(limitKBps * 1024, now), attempts);
            (exists t :: b.last <= t && b.Grants(Attempt(t, size))) <==> LetsThrough(limitKBps, size)
  {
    TokensConserved(NewBucket(limitKBps * 1024, now), attempts);
    GrantedSometimeIff(Final(NewBucket(limitKBps * 1024, now), attempts), size);
  }

  /** The default chunk of 450 MiB under a limit of 10 MiB per second waits for ever. */
  lemma DefaultChunkWaitsForever(attempts: seq<Attempt>, i: nat, now: real)
    requires IsWindow(NewBucket(10240 * 1024, now), attempts) && i < |attempts| && attempts[i].n == 450 * 1024 * 1024
    ensures !Final(NewBucket(10240 * 1024, now), attempts[..i]).Grants(attempts[i])
  {
    NeverGrantedAboveBurst(NewBucket(10240 * 1024, now), attempts, i);
  }

  /** Length of one sleep: what the deficit needs, but at most a quarter of a second. */
  function SleepFor(b: Bucket, n: int): real
    requires b.rate != 0.0
  {
    var wait := (n as real - b.tokens) / b.rate;
    if wait > 0.25 then 0.25 else wait
  }

  /** Quarter-second slices that the deficit of a caller is worth. */
  function Slices(b: Bucket, n: int): real
    requires b.rate != 0.0
  {
    (n as real - b.tokens) / (0.25 * b.rate)
  }

  /** After one sleep the request is granted, or at least one slice of the deficit is gone. */
  lemma SleepHelps(b: Bucket, n: int, now: real)
    requires b.Valid() && n as real <= b.burst && b.tokens < n as real
    requires b.last + SleepFor(b, n) <= now
    ensures b.last <= now && 0.0 <= Slices(b, n)
    ensures b.Grants(Attempt(now, n)) || Slices(b.Refill(now), n) <= Slices(b, n) - 1.0
  {
    var deficit, brought := n as real - b.tokens, Accrued(b.rate, b.last, now);
    DividePositive(deficit, b.rate);
    DividePositive(deficit, 0.25 * b.rate);
    if SleepFor(b, n) == deficit / b.rate {
      FullSleep(deficit, now - b.last, b.rate, brought);
    } else {
      SlicedSleep(deficit, now - b.last, b.rate, brought);
      assert b.tokens + brought < n as real ==> n as real - b.Refill(now).tokens == deficit - brought;
    }
  }

  /** A sleep as long as the deficit needs brings the deficit. */
  lemma FullSleep(deficit: real, slept: real, rate: real, brought: real)
    requires 0.0 < rate && deficit / rate <= slept && brought == slept * rate
    ensures deficit <= brought
  {
    ScaleUp(deficit / rate, slept, rate);
    assert deficit / rate * rate == deficit;
  }

  /** A sleep of a slice brings a slice. */
  lemma SlicedSleep(deficit: real, slept: real, rate: real, brought: real)
    requires 0.0 < rate && 0.25 <= slept && brought == slept * rate
    ensures (deficit - brought) / (0.25 * rate) <= deficit / (0.25 * rate) - 1.0
  {
    ScaleUp(0.25, slept, rate);
    SlicesDrop(deficit, deficit - brought, 0.25 * rate);
  }

  lemma DividePositive(x: real, y: real)
    requires 0.0 < x && 0.0 < y
    ensures 0.0 < x / y
  {
  }

  lemma ScaleUp(x: real, y: real, rate: real)
    requires x <= y && 0.0 < rate
    ensures x * rate <= y * rate
  {
    NonNegativeProduct(y - x, rate);
  }

  lemma SlicesDrop(before: real, after: real, slice: real)
    requires 0.0 < slice && after <= before - slice
    ensures after / slice <= before / slice - 1.0
  {
    assert (before - slice) / slice == before / slice - 1.0;
    NonNegativeProduct(before - slice - after, 1.0 / slice);
    assert (before - slice - after) / slice >= 0.0;
  }

  /**
   A lone caller's history after `sleeps` sleeps: it has its `n` bytes or nothing; it has them only if they fit
   the bucket, and if they fit every sleep has cost at least one of the `first` slices of its deficit.
   */
  ghost predicate Waiting(start: Bucket, b: Bucket, attempts: seq<Attempt>, n: int, sleeps: nat, first: real, granted: bool) {
    && b.Valid() && 0 < n && b.burst == start.burst
    && |attempts| == sleeps + 1 && IsWindow(start, attempts) && attempts[sleeps].now == b.last
    && b == Final(start, attempts)
    && Granted(start, attempts) == (if granted then n as real else 0.0)
    && (granted ==> n as real <= b.burst && (sleeps == 0 || sleeps as real <= first + 1.0))
    && (!granted ==> b.tokens < n as real)
    && (!granted && n as real <= b.burst ==> sleeps as real + Slices(b, n) <= first)
  }

  lemma FirstTurn(b: Bucket, n: int, now: real)
    requires b.Valid() && 0 < n && b.last <= now
    ensures var a := Attempt(now, n);
            Waiting(b, b.After(a), [a], n, 0, Slices(b.Refill(now), n), b.Grants(a))
  {
    RefillBound(b, now);
    NoAttempts(b);
    GrantedMore(b, [], Attempt(now, n));
    assert [] + [Attempt(now, n)] == [Attempt(now, n)];
  }

  lemma NextTurn(start: Bucket, b: Bucket, attempts: seq<Attempt>, n: int, sleeps: nat, first: real, now: real)
    requires Waiting(start, b, attempts, n, sleeps, first, false) && b.last + SleepFor(b, n) <= now
    ensures b.last <= now
    ensures var a := Attempt(now, n);
            Waiting(start, b.After(a), attempts + [a], n, sleeps + 1, first, b.Grants(a))
  {
    DividePositive(n as real - b.tokens, b.rate);
    if n as real <= b.burst {
      SleepHelps(b, n, now);
    }
    RefillBound(b, now);
    GrantedMore(start, attempts, Attempt(now, n));
  }

  lemma StillWaiting(start: Bucket, b: Bucket, attempts: seq<Attempt>, n: int, sleeps: nat, first: real, granted: bool)
    requires Waiting(start, b, attempts, n, sleeps, first, granted)
    ensures IsWindow(start, attempts) && b == Final(start, attempts) && |attempts| == sleeps + 1
    ensures Granted(start, attempts) == if granted then n as real else 0.0
    ensures granted ==> n as real <= start.burst && (sleeps == 0 || sleeps as real <= first + 1.0)
    ensures !granted && n as real <= start.burst ==> sleeps as real <= first
  {
    if !granted {
      DividePositive(n as real - b.tokens, 0.25 * b.rate);
    }
  }

  /** What is in the bucket at a look: what was there and the rate times the time since, up to the size of the bucket. */
  function There(b: Bucket, now: real): real {
    var full := b.tokens + (now - b.last) * b.rate;
    if full > b.burst then b.burst else full
  }

  lemma RefillIsThere(b: Bucket, now: real)
    ensures b.Refill(now).tokens == There(b, now)
  {
    var came := (now - b.last) * b.rate;
    assert Accrued(b.rate, b.last, now) == came;
    hide Accrued;
  }

  /**
   What the sleeps so far are worth is no more than what was missing at the first look, and what is still missing is
   left for later.
   */
  predicate OnlyAsNeeded(b: Bucket, n: int, worth: real, there: real, granted: bool) {
    if granted then worth == 0.0 || worth <= n as real - there
    else n as real <= b.burst ==> worth + (n as real - b.tokens) <= n as real - there
  }

  lemma FirstIsNeeded(b: Bucket, n: int, now: real)
    requires b.Valid()
    ensures var a := Attempt(now, n); OnlyAsNeeded(b.After(a), n, 0.0, There(b, now), b.Grants(a))
  {
    RefillIsThere(b, now);
    hide There, Accrued;
  }

  /** A sleep that is worth `more`, which is no more than is missing, brings at least that. */
  lemma MoreSleep(b: Bucket, n: int, worth: real, there: real, now: real, more: real)
    requires b.Valid() && OnlyAsNeeded(b, n, worth, there, false) && 0.0 <= worth
    requires 0.0 <= more <= n as real - b.tokens && more <= Accrued(b.rate, b.last, now)
    requires n as real <= b.burst || !b.Grants(Attempt(now, n))
    ensures var a := Attempt(now, n); OnlyAsNeeded(b.After(a), n, worth + more, there, b.Grants(a))
  {
    hide Accrued;
  }

  /** A sleep is a quarter of a second at most, and no longer than what is missing needs. */
  lemma SleepIsNeeded(b: Bucket, n: int)
    requires b.Valid() && b.tokens < n as real
    ensures 0.0 < SleepFor(b, n) <= 0.25 && SleepFor(b, n) * b.rate <= n as real - b.tokens
    ensures SleepFor(b, n) == 0.25 || SleepFor(b, n) * b.rate == n as real - b.tokens
  {
    var deficit := n as real - b.tokens;
    DividePositive(deficit, b.rate);
    DivideTimes(deficit, b.rate);
    if SleepFor(b, n) < deficit / b.rate {
      ScaleUp(SleepFor(b, n), deficit / b.rate, b.rate);
    }
  }

  lemma DivideTimes(x: real, y: real)
    requires y != 0.0
    ensures x / y * y == x
  {
  }

  lemma NextSleepIsNeeded(start: Bucket, b: Bucket, attempts: seq<Attempt>, n: int, sleeps: nat, first: real, slept: real, there: real, now: real)
    requires Waiting(start, b, attempts, n, sleeps, first, false) && 0.0 <= slept && b.rate == start.rate
    requires OnlyAsNeeded(b, n, Accrued(start.rate, 0.0, slept), there, false)
    requires b.last + SleepFor(b, n) <= now
    ensures 0.0 <= slept + SleepFor(b, n)
    ensures OnlyAsNeeded(b.After(Attempt(now, n)), n, Accrued(start.rate, 0.0, slept + SleepFor(b, n)), there, b.Grants(Attempt(now, n)))
  {
    var wait := SleepFor(b, n);
    SleepIsNeeded(b, n);
    RefillBound(b, now);
    AccruedMonotone(b.rate, 0.0, slept);
    AccruedMonotone(b.rate, slept, slept + wait);
    AccruedAdds(b.rate, 0.0, slept, slept + wait);
    WorthOfSleep(b, n, slept, now);
    hide Accrued, SleepFor;
    MoreSleep(b, n, Accrued(b.rate, 0.0, slept), there, now, Accrued(b.rate, slept, slept + wait));
  }

  lemma AccruedMonotone(rate: real, from: real, to: real)
    requires 0.0 <= rate && from <= to
    ensures 0.0 <= Accrued(rate, from, to)
  {
    NonNegativeProduct(to - from, rate);
  }

  lemma WorthOfSleep(b: Bucket, n: int, slept: real, now: real)
    requires b.Valid() && b.tokens < n as real && b.last + SleepFor(b, n) <= now
    ensures Accrued(b.rate, slept, slept + SleepFor(b, n)) <= n as real - b.tokens
    ensures Accrued(b.rate, slept, slept + SleepFor(b, n)) <= Accrued(b.rate, b.last, now)
  {
    SleepIsNeeded(b, n);
    var wait := SleepFor(b, n);
    assert Accrued(b.rate, slept, slept + wait) == wait * b.rate;
    ScaleUp(wait, now - b.last, b.rate);
  }

  /** The sleeps were no longer than what was missing at time `from` needs, and all the time together no shorter. */
  predicate InTime(start: Bucket, n: int, slept: real, from: real, to: real) {
    var missing := n as real - There(start, from);
    (slept * start.rate == 0.0 || slept * start.rate <= missing) && missing <= (to - from) * start.rate
  }

  lemma WaitedAsNeeded(start: Bucket, b: Bucket, attempts: seq<Attempt>, n: int, sleeps: nat, first: real, slept: real, t0: real)
    requires start.Valid() && Waiting(start, b, attempts, n, sleeps, first, true) && attempts[0].now == t0
    requires OnlyAsNeeded(b, n, Accrued(start.rate, 0.0, slept), There(start, t0), true)
    ensures InTime(start, n, slept, t0, b.last)
  {
    hide There, Final, Granted, Accrued;
    TookAsLong(start, attempts, n, There(start, t0));
    InTimeByAccrued(start, n, slept, t0, b.last);
  }

  lemma InTimeByAccrued(start: Bucket, n: int, slept: real, from: real, to: real)
    requires Accrued(start.rate, 0.0, slept) == 0.0 || Accrued(start.rate, 0.0, slept) <= n as real - There(start, from)
    requires n as real - There(start, from) <= Accrued(start.rate, from, to)
    ensures InTime(start, n, slept, from, to)
  {
    hide There;
    AccruedIsRateTimesTime(start.rate, 0.0, slept);
    AccruedIsRateTimesTime(start.rate, from, to);
  }

  lemma TookAsLong(start: Bucket, attempts: seq<Attempt>, n: int, there: real)
    requires start.Valid() && attempts != [] && IsWindow(start, attempts) && Granted(start, attempts) == n as real
    requires there == There(start, attempts[0].now)
    ensures n as real - there <= Accrued(start.rate, attempts[0].now, attempts[|attempts| - 1].now)
  {
    RefillIsThere(start, attempts[0].now);
    FromFirstLook(start, attempts);
    hide *;
  }

  /** How much a caller has overslept in its first `k` sleeps. */
  function Lateness(late: nat -> real, k: nat): real {
    if k == 0 then 0.0 else Lateness(late, k - 1) + late(k - 1)
  }

  lemma OneMoreLate(late: nat -> real, k: nat)
    ensures Lateness(late, k + 1) == Lateness(late, k) + late(k)
  {
  }

  /** A clock that only moves while somebody sleeps, and may oversleep. */
  class Clock {
    var now: real

    method Sleep(wait: real, late: real)
      requires 0.0 <= wait && 0.0 <= late
      modifies this
      ensures now == old(now) + wait + late
    {
      now := now + wait + late;
    }
  }

  /** No limiter at all means no limit. */
  method NewRateLimiter(bytesPerSec: int, clock: Clock) returns (limiter: RateLimiter?)
    ensures limiter == null <==> bytesPerSec <= 0
    ensures limiter != null ==> fresh(limiter) && limiter.bucket.Valid()
                                && limiter.bucket == Bucket(bytesPerSec as real, bytesPerSec as real, bytesPerSec as real, clock.now)
  {
    if bytesPerSec <= 0 {
      return null;
    }
    limiter := new RateLimiter(bytesPerSec, clock);
  }

  class RateLimiter {
    var bucket: Bucket

    constructor (bytesPerSec: int, clock: Clock)
      requires 0 < bytesPerSec
      ensures bucket == NewBucket(bytesPerSec, clock.now) && bucket.Valid()
    {
      bucket := NewBucket(bytesPerSec, clock.now);
    }

    /** One turn of the waiting loop under the lock: refill, then take the bytes or say how long to sleep. */
    method TryTake(n: int, clock: Clock) returns (granted: bool, wait: real)
      requires bucket.Valid() && bucket.last <= clock.now && 0 < n
      modifies this
      ensures bucket.Valid() && bucket == old(bucket).After(Attempt(clock.now, n)) && bucket.last == clock.now
      ensures granted == old(bucket).Grants(Attempt(clock.now, n))
      ensures !granted ==> bucket.tokens < n as real && wait == SleepFor(bucket, n) && 0.0 <= wait
      ensures bucket.rate == old(bucket).rate && bucket.burst == old(bucket).burst
      ensures granted <==> n as real <= There(old(bucket), clock.now)
      ensures bucket.tokens == There(old(bucket), clock.now) - if granted then n as real else 0.0
      ensures !granted ==> 0.0 < wait <= 0.25 && (wait == 0.25 || wait * bucket.rate == n as real - bucket.tokens)
    {
      RefillBound(bucket, clock.now);
      RefillIsThere(bucket, clock.now);
      var tokens := bucket.tokens + (clock.now - bucket.last) * bucket.rate;
      if tokens > bucket.burst {
        tokens := bucket.burst;
      }
      assert tokens == There(bucket, clock.now);
      hide There, Accrued;
      if tokens >= n as real {
        bucket := bucket.(tokens := tokens - n as real, last := clock.now);
        return true, 0.0;
      }
      bucket := bucket.(tokens := tokens, last := clock.now);
      SleepIsNeeded(bucket, n);
      wait := (n as real - tokens) / bucket.rate;
      if wait > 0.25 {
        wait := 0.25;
      }
      return false, wait;
    }

    /**
     A lone caller that is watched for `rounds` sleeps. What does not fit the bucket is still waiting then, for
     any number of rounds; what fits is served after at most one sleep per quarter second of its deficit, and
     one more. `late` is how much the caller oversleeps; `attempts` is the history that its turns made, in which
     exactly its `n` bytes are granted, or nothing.
     */
    method WaitN(n: int, clock: Clock, late: nat -> real, rounds: nat)
        returns (granted: bool, sleeps: nat, ghost attempts: seq<Attempt>, ghost slept: real)
      requires bucket.Valid() && bucket.last <= clock.now
      requires forall i :: 0.0 <= late(i)
      modifies this, clock
      ensures bucket.Valid() && bucket.last <= clock.now && old(clock.now) <= clock.now
      ensures IsWindow(old(bucket), attempts) && bucket == Final(old(bucket), attempts)
      ensures Granted(old(bucket), attempts) == if granted && 0 < n then n as real else 0.0
      ensures n <= 0 ==> granted && sleeps == 0 && attempts == [] && clock.now == old(clock.now)
      ensures 0 < n ==> |attempts| == sleeps + 1 && bucket.last == clock.now
      ensures sleeps <= rounds && (!granted ==> sleeps == rounds)
      ensures 0 < n && granted ==> n as real <= old(bucket).burst
      ensures 0 < n && granted ==> sleeps == 0 || sleeps as real <= Slices(old(bucket).Refill(old(clock.now)), n) + 1.0
      ensures 0 < n && n as real <= old(bucket).burst && Slices(old(bucket).Refill(old(clock.now)), n) < rounds as real ==> granted
      ensures clock.now == old(clock.now) + slept + Lateness(late, sleeps)
      ensures 0 < n && n as real <= There(old(bucket), old(clock.now)) ==> granted && sleeps == 0 && slept == 0.0
      ensures 0 < n && granted ==> InTime(old(bucket), n, slept, old(clock.now), clock.now)
    {
      granted, sleeps, attempts, slept := true, 0, [], 0.0;
      NoAttempts(bucket);
      assert Lateness(late, 0) == 0.0 && 0.0 < bucket.rate && Accrued(bucket.rate, 0.0, 0.0) == 0.0;
      if n <= 0 {
        return;
      }
      hide *;
      ghost var start, first := bucket, Slices(bucket.Refill(clock.now), n);
      ghost var t0, there := clock.now, There(bucket, clock.now);
      FirstTurn(bucket, n, clock.now);
      FirstIsNeeded(bucket, n, clock.now);
      attempts := [Attempt(clock.now, n)];
      var wait;
      granted, wait := TryTake(n, clock);
      while !granted && sleeps < rounds
        invariant n as real <= there ==> granted && sleeps == 0 && slept == 0.0
        invariant sleeps <= rounds && attempts != [] && attempts[0].now == t0
        invariant Waiting(start, bucket, attempts, n, sleeps, first, granted)
        invariant 0.0 <= slept && OnlyAsNeeded(bucket, n, Accrued(start.rate, 0.0, slept), there, granted)
        invariant bucket.Valid() && bucket.last == clock.now && t0 <= clock.now && bucket.rate == start.rate
        invariant clock.now == t0 + slept + Lateness(late, sleeps)
        invariant !granted ==> wait == SleepFor(bucket, n) && 0.0 <= wait
      {
        clock.Sleep(wait, late(sleeps));
        NextTurn(start, bucket, attempts, n, sleeps, first, clock.now);
        NextSleepIsNeeded(start, bucket, attempts, n, sleeps, first, slept, there, clock.now);
        OneMoreLate(late, sleeps);
        attempts := attempts + [Attempt(clock.now, n)];
        sleeps, slept := sleeps + 1, slept + wait;
        granted, wait := TryTake(n, clock);
      }
      if granted {
        WaitedAsNeeded(start, bucket, attempts, n, sleeps, first, slept, t0);
      }
      StillWaiting(start, bucket, attempts, n, sleeps, first, granted);
    }
  }

  /**
   A transfer makes its limiter from the setting and waits for a chunk. There is no limiter exactly when there is no
   limit, and then nobody waits. A new limiter lets a chunk through at once or, however long it is watched, never:
   exactly those that are no larger than one second's worth.
   */
  method WaitForChunk(limitKBps: int, size: int, clock: Clock, late: nat -> real, rounds: nat) returns (passed: bool, limiter: RateLimiter?)
    requires forall i :: 0.0 <= late(i)
    modifies clock
    ensures limiter == null <==> limitKBps <= 0
    ensures limiter == null ==> passed
    ensures passed ==> clock.now == old(clock.now)
    ensures passed <==> limitKBps <= 0 || size <= limitKBps * 1024
    ensures passed <==> LetsThrough(limitKBps, size)
  {
    limiter := NewRateLimiter(limitKBps * 1024, clock);
    if limiter == null {
      return true, null;
    }
    assert There(limiter.bucket, clock.now) == (limitKBps * 1024) as real;
    hide There, Final, Granted, InTime;
    var sleeps;
    ghost var attempts, slept;
    passed, sleeps, attempts, slept := limiter.WaitN(size, clock, late, rounds);
    assert Lateness(late, 0) == 0.0;
  }
}
