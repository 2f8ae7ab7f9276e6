/** The retry loop around a handler: exponential backoff with jitter against a deadline, on a clock
    that never goes back and sleeps that last at least as long as asked. */
module Retry {

  const DEFAULT_TIMEOUT: real := 500.0
  const DEFAULT_INTERVAL: real := 1.0
  const MAX_BACKOFF: real := 60.0
  const MAX_ATTEMPTS: nat := 10

  /** How a call of the handler ends, by the branch that catches it. */
  datatype Outcome = Done | NotReady | OverQuota | OtherConflict | Listed | Unexpected

  datatype Answer = Handled | ObjectGone | Reraised

  /** `2 ** n * x` */
  function Doubled(x: real, n: nat): real {
    if n == 0 then x else 2.0 * Doubled(x, n - 1)
  }

  /** `exponential_backoff`, the jitter being drawn before. */
  function Backoff(attempt: nat, interval: real, cap: real, jitter: nat): real {
    var b := Doubled(interval, if attempt >= MAX_ATTEMPTS then MAX_ATTEMPTS else attempt);
    (if b > cap then cap else b) + jitter as real
  }

  /** The part of `exponential_sleep` that picks the time to sleep. */
  function ToSleep(attempt: nat, interval: real, cap: real, jitter: nat, left: real): (r: real)
    ensures r >= interval
    ensures r >= left || r >= Backoff(attempt, interval, cap, 0)
    ensures r <= left || r == interval
    ensures left >= Backoff(attempt, interval, cap, 0) + jitter as real &&
            Backoff(attempt, interval, cap, 0) >= interval ==>
              r == Backoff(attempt, interval, cap, 0) + jitter as real
  {
    var b := Backoff(attempt, interval, cap, jitter);
    var clipped := if b > left then left else b;
    if clipped < interval then interval else clipped
  }

  /** The time that `n` sleeps take at the least when no deadline cuts them. */
  ghost function Slept(n: nat, interval: real, cap: real): real {
    if n == 0 then 0.0 else Slept(n - 1, interval, cap) + Least(n, interval, cap)
  }

  ghost function Least(attempt: nat, interval: real, cap: real): real {
    var b := Backoff(attempt, interval, cap, 0);
    if b < interval then interval else b
  }

  /** `n * x` */
  function Times(n: nat, x: real): real {
    if n == 0 then 0.0 else Times(n - 1, x) + x
  }

  lemma {:induction false} TimesIsProduct(n: nat, x: real)
    ensures Times(n, x) == n as real * x
  {
    if n > 0 {
      TimesIsProduct(n - 1, x);
      assert n as real * x == (n - 1) as real * x + x;
    }
  }

  lemma {:induction false} SleptAtLeast(n: nat, interval: real, cap: real)
    ensures Slept(n, interval, cap) >= Times(n, interval)
  {
    if n > 0 { SleptAtLeast(n - 1, interval, cap); }
  }

  /** The number of whole intervals that cover the timeout: the quotient rounded up. */
  function Intervals(timeout: real, interval: real): (n: nat)
    requires interval > 0.0 && timeout >= 0.0
  {
    -(-(timeout / interval)).Floor
  }

  lemma {:induction false} IntervalsCover(timeout: real, interval: real)
    requires interval > 0.0 && timeout >= 0.0
    ensures Times(Intervals(timeout, interval), interval) >= timeout
  {
    var n, q := Intervals(timeout, interval), timeout / interval;
    assert q * interval == timeout && n as real >= q;
    assert n as real * interval >= q * interval;
    TimesIsProduct(n, interval);
  }

  /** With the default interval and cap, thirteen sleeps outlast the default timeout and twelve do not. */
  lemma {:induction false} ThirteenSleepsSuffice()
    ensures Slept(12, DEFAULT_INTERVAL, MAX_BACKOFF) < DEFAULT_TIMEOUT <= Slept(13, DEFAULT_INTERVAL, MAX_BACKOFF)
  {
    FiveSleeps();
    LongSleeps(6);
    LongSleeps(7);
    LongSleeps(8);
    LongSleeps(9);
    LongSleeps(10);
    LongSleeps(11);
    LongSleeps(12);
    LongSleeps(13);
  }

  lemma {:induction false} DoublesTo(n: nat)
    ensures Doubled(1.0, 1) == 2.0 && Doubled(1.0, 2) == 4.0 && Doubled(1.0, 3) == 8.0 && Doubled(1.0, 4) == 16.0
    ensures Doubled(1.0, 5) == 32.0 && (n >= 6 ==> Doubled(1.0, n) >= 64.0)
  {
    assert Doubled(1.0, 2) == 4.0;
    assert Doubled(1.0, 4) == 16.0;
    if n == 6 { assert Doubled(1.0, 6) == 64.0; }
    if n > 6 { DoublesTo(n - 1); }
  }

  lemma {:induction false} FiveSleeps()
    ensures Slept(5, DEFAULT_INTERVAL, MAX_BACKOFF) == 62.0
  {
    DoublesTo(5);
    assert Slept(1, DEFAULT_INTERVAL, MAX_BACKOFF) == 2.0;
    assert Slept(2, DEFAULT_INTERVAL, MAX_BACKOFF) == 6.0;
    assert Slept(3, DEFAULT_INTERVAL, MAX_BACKOFF) == 14.0;
    assert Slept(4, DEFAULT_INTERVAL, MAX_BACKOFF) == 30.0;
  }

  lemma {:induction false} LongSleeps(n: nat)
    requires n >= 6
    ensures Slept(n, DEFAULT_INTERVAL, MAX_BACKOFF) == Slept(n - 1, DEFAULT_INTERVAL, MAX_BACKOFF) + 60.0
  {
    DoublesTo(if n >= MAX_ATTEMPTS then MAX_ATTEMPTS else n);
  }

  /** The n-th call: how long it takes, how it ends and whether the object is still there before it;
      then the jitter of the n-th sleep and how much longer than asked it lasts. */
  datatype World = World(
    lasts: nat -> real, ends: nat -> Outcome, there: nat -> bool, jitter: nat -> nat, late: nat -> real)

  ghost predicate Forward(w: World) {
    (forall n :: w.lasts(n) >= 0.0) && (forall n :: w.late(n) >= 0.0)
  }

  class Loop {
    const timeout: real
    const interval: real
    const world: World
    var now: real
    var alive: bool
    var calls: nat                        // calls of the handler so far
    ghost var sleeps: seq<(real, real)>   // when each sleep began and what it asked for

    constructor (timeout: real, interval: real, world: World, now: real)
      ensures this.timeout == timeout && this.interval == interval && this.world == world && this.now == now
      ensures alive && calls == 0 && sleeps == []
    {
      this.timeout, this.interval, this.world, this.now := timeout, interval, world, now;
      alive, calls, sleeps := true, 0, [];
    }

    /** `_sleep` with `exponential_sleep`; `slept` unless the deadline has passed. */
    method Sleep(deadline: real, attempt: nat) returns (slept: bool)
      requires interval > 0.0 && Forward(world)
      modifies this`now, this`sleeps
      ensures slept <==> old(now) < deadline
      ensures !slept ==> now == old(now) && sleeps == old(sleeps)
      ensures slept ==> now >= deadline || now >= old(now) + Least(attempt, interval, MAX_BACKOFF)
      ensures slept ==> exists asked :: sleeps == old(sleeps) + [(old(now), asked)] && asked >= interval &&
                                        old(now) + asked <= now && old(now) + asked < deadline + interval
    {
      var left := deadline - now;
      slept := left > 0.0;
      if slept {
        var asked := ToSleep(attempt, interval, MAX_BACKOFF, world.jitter(attempt), left);
        sleeps := sleeps + [(now, asked)];
        now := now + asked + world.late(attempt);
      }
    }

    /** One call of the handler and what follows it; `again` when it is to be called once more. */
    method Attempt(deadline: real, attempt: nat) returns (again: bool)
      requires interval > 0.0 && Forward(world) && alive
      modifies this
      ensures calls == old(calls) + 1 && now >= old(now)
      ensures again ==>
                old(now) < deadline && alive &&
                (now >= deadline || now >= old(now) + Least(attempt, interval, MAX_BACKOFF))
      ensures again ==>
                exists at, asked :: sleeps == old(sleeps) + [(at, asked)] && at < deadline &&
                              at + asked < deadline + interval
      ensures !again ==> sleeps == old(sleeps)
      ensures !again && Retried(world.ends(attempt)) ==> now >= deadline
      ensures again ==> Retried(world.ends(attempt))
      ensures alive == (again || !(world.ends(attempt).Listed? || world.ends(attempt).Unexpected?))
    {
      calls := calls + 1;
      now := now + world.lasts(attempt);
      again := false;
      if Retried(world.ends(attempt)) {
        again := Sleep(deadline, attempt);
      }
      alive := again || !(world.ends(attempt).Listed? || world.ends(attempt).Unexpected?);
    }

    /** `Retry.__call__` */
    method Run() returns (r: Answer)
      requires interval > 0.0 && timeout >= 0.0 && Forward(world) && calls == 0 && sleeps == [] && alive
      modifies this
      ensures forall n: nat :: Slept(n, interval, MAX_BACKOFF) >= timeout ==> calls <= n + 1
      ensures calls <= Intervals(timeout, interval) + 1
      ensures timeout == DEFAULT_TIMEOUT && interval == DEFAULT_INTERVAL ==> calls <= 14
      ensures SleepsEndInTime(sleeps, old(now) + timeout, interval) && now >= old(now)
      ensures r.Handled? ==> calls > 0 && world.ends(calls).Done?
      ensures r.Reraised? ==>
              calls > 0 && !world.ends(calls).Done? && (Retried(world.ends(calls)) ==> now >= old(now) + timeout)
      ensures !alive <==> r.Reraised? && (world.ends(calls).Listed? || world.ends(calls).Unexpected?)
      ensures AllThere(world, calls)
      ensures forall n :: 1 <= n < calls ==>
              world.ends(n).NotReady? || world.ends(n).OverQuota? || world.ends(n).Listed?
      ensures r.ObjectGone? ==>
                !world.there(calls + 1) &&
                (calls > 0 ==> world.ends(calls).NotReady? || world.ends(calls).OverQuota? || world.ends(calls).Listed?)
      ensures r.Reraised? && now < old(now) + timeout ==>
              world.ends(calls).OtherConflict? || world.ends(calls).Unexpected?
    {
      ghost var most := Intervals(timeout, interval);
      IntervalsCover(timeout, interval);
      SleptAtLeast(most, interval, MAX_BACKOFF);
      ThirteenSleepsSuffice();
      r := RunWithin(most);
    }

    method RunWithin(ghost most: nat) returns (r: Answer)
      requires interval > 0.0 && timeout >= 0.0 && Forward(world) && calls == 0 && sleeps == [] && alive
      requires Slept(most, interval, MAX_BACKOFF) >= timeout
      modifies this
      ensures forall n: nat :: Slept(n, interval, MAX_BACKOFF) >= timeout ==> calls <= n + 1
      ensures SleepsEndInTime(sleeps, old(now) + timeout, interval) && now >= old(now)
      ensures r.Handled? ==> calls > 0 && world.ends(calls).Done?
      ensures r.Reraised? ==>
              calls > 0 && !world.ends(calls).Done? && (Retried(world.ends(calls)) ==> now >= old(now) + timeout)
      ensures !alive <==> r.Reraised? && (world.ends(calls).Listed? || world.ends(calls).Unexpected?)
      ensures AllThere(world, calls) && AllRetried(world, calls)
      ensures r.ObjectGone? ==> !world.there(calls + 1) && (calls > 0 ==> Retried(world.ends(calls)))
    {
      ghost var start := now;
      var deadline := now + timeout;
      r := ObjectGone;
      var again := true;
      while again && world.there(calls + 1)
        invariant now >= start && SleepsEndInTime(sleeps, deadline, interval)
        invariant AllThere(world, calls) && AllRetried(world, if again then calls + 1 else calls)
        invariant calls == |sleeps| + (if again then 0 else 1) &&
                  (|sleeps| > 0 ==> InTime(|sleeps| - 1, timeout, interval))
        invariant again ==>
                    alive && r == ObjectGone &&
                    (now >= deadline || now >= start + Slept(|sleeps|, interval, MAX_BACKOFF))
        invariant !again ==> (if world.ends(calls).Done? then r.Handled? else r.Reraised?)
        invariant !again ==> (Retried(world.ends(calls)) ==> now >= deadline)
        invariant !again ==> alive == !(world.ends(calls).Listed? || world.ends(calls).Unexpected?)
        decreases again, most + 1 - |sleeps|
      {
        again := Attempt(deadline, calls + 1);
        if again {
          FewSleeps(|sleeps|, most, timeout, interval);
        } else {
          r := if world.ends(calls).Done? then Handled else Reraised;
        }
      }
      CallsAreFew(|sleeps|, calls, timeout, interval);
    }
  }

  /** Before each of the first `n` calls the object was there. */
  ghost predicate AllThere(w: World, n: nat) {
    forall k :: 1 <= k <= n ==> w.there(k)
  }

  /** Each call before the n-th one was followed by another. */
  ghost predicate AllRetried(w: World, n: nat) {
    forall k :: 1 <= k < n ==> Retried(w.ends(k))
  }

  /** The branches that sleep and try again. */
  predicate Retried(o: Outcome) {
    o.NotReady? || o.OverQuota? || o.Listed?
  }

  /** Every sleep begins before the deadline and asks for less than an interval beyond it. */
  ghost predicate SleepsEndInTime(sleeps: seq<(real, real)>, deadline: real, interval: real) {
    forall i :: 0 <= i < |sleeps| ==> sleeps[i].0 < deadline && sleeps[i].0 + sleeps[i].1 < deadline + interval
  }

  /** `n` uncut sleeps do not take the whole timeout. */
  ghost predicate InTime(n: nat, timeout: real, interval: real) {
    Slept(n, interval, MAX_BACKOFF) < timeout
  }

  /** No more sleeps than it takes to outlast the timeout. */
  lemma {:induction false} FewSleeps(sleeps: nat, n: nat, timeout: real, interval: real)
    requires interval > 0.0 && Slept(n, interval, MAX_BACKOFF) >= timeout
    requires sleeps > 0 ==> InTime(sleeps - 1, timeout, interval)
    ensures sleeps <= n
  {
    if n < sleeps { SleptGrows(n, sleeps - 1, interval, MAX_BACKOFF); }
  }

  lemma {:induction false} CallsAreFew(sleeps: nat, calls: nat, timeout: real, interval: real)
    requires interval > 0.0 && calls <= sleeps + 1
    requires sleeps > 0 ==> InTime(sleeps - 1, timeout, interval)
    ensures forall n: nat :: Slept(n, interval, MAX_BACKOFF) >= timeout ==> calls <= n + 1
  {
    forall n: nat | Slept(n, interval, MAX_BACKOFF) >= timeout ensures calls <= n + 1 {
      FewSleeps(sleeps, n, timeout, interval);
    }
  }

  lemma {:induction false} SleptGrows(m: nat, n: nat, interval: real, cap: real)
    requires m <= n && interval > 0.0
    ensures Slept(m, interval, cap) <= Slept(n, interval, cap)
  {
    if m < n { SleptGrows(m, n - 1, interval, cap); }
  }
}
