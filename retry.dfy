/**
 * Binary exponential backoff: call a function until it succeeds, waiting
 * `slot_duration * (2^count - 1) * scatter` before retry number `count`, and
 * give up after `max_slots` tries when `fail_on_truncate` is set.
 *
 * The function's outcomes are given in advance, one per attempt; the clock
 * is replaced by the list of delays the driver schedules, in order.
 */
module Retry {

  import opened Wrappers

  /** `BinaryExponentialBackoff(fail_on_truncate, max_slots, slot_duration)` with a fixed scatter. */
  datatype Config = Config(failOnTruncate: bool, maxSlots: nat, slotDuration: int, scatter: int)

  /** The defaults: fail on truncation after 12 slots. */
  function DefaultConfig(slotDuration: int, scatter: int): (cfg: Config)
    ensures cfg.failOnTruncate && cfg.maxSlots == 12
    ensures cfg.slotDuration == slotDuration && cfg.scatter == scatter
  {
    Config(true, 12, slotDuration, scatter)
  }

  /** What one call of the function does: succeed with a value or fail with an error. */
  datatype Outcome<+V, +E> = Success(value: V) | Failure(error: E)

  /**
   * How a `retry` ends up: `finished` fired with a success value,
   * errbacked with the last failure, or not fired yet because the given
   * outcomes ran out first. `Raised` is `retry` itself raising: with no
   * slots and `fail_on_truncate` it errbacks with `None` before any
   * attempt, and Twisted then has no failure to build.
   */
  datatype Settled<+V, +E> = Succeeded(value: V) | Failed(why: E) | Raised | Unsettled

  function Pow2(n: nat): (p: int)
    ensures p >= 1
  {
    if n == 0 then 1 else 2 * Pow2(n - 1)
  }

  function Min(a: int, b: int): int {
    if a <= b then a else b
  }

  /** The wait before a retry made with slot count `count`. */
  function Delay(cfg: Config, count: nat): int {
    cfg.slotDuration * (Pow2(count) - 1) * cfg.scatter
  }

  /**
   * The delays scheduled ahead of the first `n` attempts, in order. Attempt
   * 0 runs at once; attempt `i >= 1` waits `Delay` for the slot count
   * `min(i, max_slots)`. With `max_slots == 0` the count is always 0 and no
   * attempt waits.
   */
  function Schedule(cfg: Config, n: nat): (ds: seq<int>)
    ensures |ds| == if n == 0 || cfg.maxSlots == 0 then 0 else n - 1
    ensures forall i :: 0 <= i < |ds| ==> ds[i] == Delay(cfg, Min(i + 1, cfg.maxSlots))
  {
    if n == 0 || cfg.maxSlots == 0 then []
    else seq(n - 1, i requires 0 <= i < n - 1 => Delay(cfg, Min(i + 1, cfg.maxSlots)))
  }

  lemma ScheduleSnoc(cfg: Config, n: nat)
    requires n >= 1 && cfg.maxSlots > 0
    ensures Schedule(cfg, n + 1) == Schedule(cfg, n) + [Delay(cfg, Min(n, cfg.maxSlots))]
  {
  }

  predicate AllFail<V, E>(outcomes: seq<Outcome<V, E>>) {
    forall i :: 0 <= i < |outcomes| ==> outcomes[i].Failure?
  }

  /**
   * `retry(f, *args, **kwargs)` driven to the end of the given outcomes.
   * `calls` is the number of times `f` was called, and `calledWith` the
   * arguments of each call: always `args`. The call succeeds at
   * the first success; with `fail_on_truncate` it fails with the last error
   * once `max_slots` calls have failed; otherwise it is still waiting when
   * the outcomes run out, with the delay of the next attempt already
   * scheduled.
   */
  method Retry<A, V, E>(cfg: Config, args: A, outcomes: seq<Outcome<V, E>>)
    returns (delays: seq<int>, result: Settled<V, E>, calls: nat, calledWith: seq<A>)
    ensures calls <= |outcomes|
    ensures calledWith == seq(calls, _ => args)
    ensures result.Succeeded? ==>
      && 1 <= calls && AllFail(outcomes[..calls - 1]) && outcomes[calls - 1] == Success(result.value)
      && (cfg.failOnTruncate ==> calls <= cfg.maxSlots)
      && delays == Schedule(cfg, calls)
    ensures result.Failed? ==>
      && cfg.failOnTruncate && 1 <= calls == cfg.maxSlots && AllFail(outcomes[..calls])
      && result.why == outcomes[calls - 1].error
      && delays == Schedule(cfg, calls)
    ensures result.Raised? <==> cfg.failOnTruncate && cfg.maxSlots == 0
    ensures result.Raised? ==> calls == 0 && delays == []
    ensures result.Unsettled? ==>
      && calls == |outcomes| && AllFail(outcomes)
      && (cfg.failOnTruncate ==> calls < cfg.maxSlots)
      && delays == Schedule(cfg, calls + 1)
  {
    var count: nat := 0;
    var why: Option<E> := None;
    delays := [];
    calls := 0;
    calledWith := [];
    while true
      invariant calls <= |outcomes| && AllFail(outcomes[..calls])
      invariant calledWith == seq(calls, _ => args)
      invariant Min(count, cfg.maxSlots) == Min(calls, cfg.maxSlots)
      invariant cfg.failOnTruncate ==> calls <= cfg.maxSlots
      invariant why == if calls == 0 then None else Some(outcomes[calls - 1].error)
      invariant delays == Schedule(cfg, calls)
      decreases |outcomes| - calls
    {
      count := Min(count, cfg.maxSlots);
      if count == cfg.maxSlots && cfg.failOnTruncate {
        result := if why.None? then Raised else Failed(why.value);
        return;
      }
      if count != 0 {
        ScheduleSnoc(cfg, calls);
        delays := delays + [Delay(cfg, count)];
      }
      if calls == |outcomes| {
        result := Unsettled;
        return;
      }
      match outcomes[calls] {
        case Success(v) =>
          calledWith := calledWith + [args];
          calls := calls + 1;
          result := Succeeded(v);
          return;
        case Failure(e) =>
          assert outcomes[..calls + 1] == outcomes[..calls] + [Failure(e)];
          why := Some(e);
          count := count + 1;
          calledWith := calledWith + [args];
          calls := calls + 1;
      }
    }
  }

  lemma {:induction false} Pow2Monotone(a: nat, b: nat)
    requires a <= b
    ensures Pow2(a) <= Pow2(b)
    decreases b
  {
    if a < b {
      Pow2Monotone(a, b - 1);
    }
  }

  /** Each further slot doubles the wait and adds one slot's worth. */
  lemma DelayDoubles(cfg: Config, count: nat)
    ensures Delay(cfg, count + 1) == 2 * Delay(cfg, count) + cfg.slotDuration * cfg.scatter
  {
    var p := Pow2(count);
    assert Pow2(count + 1) == 2 * p;
    calc {
      Delay(cfg, count + 1);
      cfg.slotDuration * (2 * p - 1) * cfg.scatter;
      2 * (cfg.slotDuration * (p - 1) * cfg.scatter) + cfg.slotDuration * cfg.scatter;
    }
  }

  lemma MulNonneg(x: int, y: int)
    requires x >= 0 && y >= 0
    ensures x * y >= 0
  {
  }

  /** The wait for a slot count is the slot-duration-times-scatter unit times `2^count - 1`. */
  lemma DelayUnits(cfg: Config, count: nat)
    ensures Delay(cfg, count) == (cfg.slotDuration * cfg.scatter) * (Pow2(count) - 1)
  {
  }

  /** With a non-negative slot duration and scatter, more slots never mean a shorter wait. */
  lemma DelayMonotone(cfg: Config, a: nat, b: nat)
    requires cfg.slotDuration >= 0 && cfg.scatter >= 0 && a <= b
    ensures Delay(cfg, a) <= Delay(cfg, b)
  {
    var k := cfg.slotDuration * cfg.scatter;
    MulNonneg(cfg.slotDuration, cfg.scatter);
    Pow2Monotone(a, b);
    DelayUnits(cfg, a);
    DelayUnits(cfg, b);
    MulNonneg(k, Pow2(b) - Pow2(a));
    assert k * (Pow2(b) - 1) - k * (Pow2(a) - 1) == k * (Pow2(b) - Pow2(a));
  }

  /**
   * With a non-negative slot duration and scatter the waits never shrink,
   * and from retry `max_slots` on every retry waits the capped delay.
   */
  lemma ScheduleNondecreasing(cfg: Config, n: nat, i: int, j: int)
    requires cfg.slotDuration >= 0 && cfg.scatter >= 0
    requires 0 <= i <= j < |Schedule(cfg, n)|
    ensures Schedule(cfg, n)[i] <= Schedule(cfg, n)[j]
    ensures j + 1 >= cfg.maxSlots ==> Schedule(cfg, n)[j] == Delay(cfg, cfg.maxSlots)
  {
    DelayMonotone(cfg, Min(i + 1, cfg.maxSlots), Min(j + 1, cfg.maxSlots));
  }

  /** With one-second slots and no scatter, the first nine retries wait 1, 3, 7, ..., 511. */
  lemma ScheduleExample(fot: bool)
    ensures Schedule(Config(fot, 12, 1, 1), 10) == [1, 3, 7, 15, 31, 63, 127, 255, 511]
  {
    var cfg := Config(fot, 12, 1, 1);
    assert Pow2(9) == 512 by {
      assert Pow2(1) == 2 && Pow2(2) == 4 && Pow2(3) == 8 && Pow2(4) == 16;
      assert Pow2(5) == 32 && Pow2(6) == 64 && Pow2(7) == 128 && Pow2(8) == 256;
    }
  }

  /**
   * Nine failures and then a success: ten calls with the same arguments,
   * nine scheduled waits, and the success value delivered.
   */
  method NineFailuresScenario<A, V, E>(args: A, v: V, e: E)
    returns (delays: seq<int>, result: Settled<V, E>, calledWith: seq<A>)
    ensures delays == [1, 3, 7, 15, 31, 63, 127, 255, 511] && result == Succeeded(v)
    ensures calledWith == seq(10, _ => args)
  {
    var outcomes := seq(9, _ => Failure(e)) + [Success(v)];
    assert outcomes[9] == Success(v);
    var calls;
    delays, result, calls, calledWith := Retry(DefaultConfig(1, 1), args, outcomes);
    assert result.Succeeded? && calls == 10;
    ScheduleExample(true);
  }

  /** Under the defaults twelve failures give up: eleven scheduled waits and the last error. */
  method TwelveFailuresScenario<A, V, E>(args: A, v: V, e: E) returns (waits: nat, result: Settled<V, E>)
    ensures waits == 11 && result == Failed(e)
  {
    var outcomes := seq(12, _ => Failure(e)) + [Success(v)];
    assert outcomes[12] == Success(v);
    var delays, calls, calledWith;
    delays, result, calls, calledWith := Retry(DefaultConfig(1, 1), args, outcomes);
    assert result.Failed?;
    waits := |delays|;
  }

  /** With no slots and `fail_on_truncate`, `retry` raises before calling the function at all. */
  method NoSlotsScenario<A, V, E>(args: A, v: V) returns (result: Settled<V, E>, calls: nat)
    ensures result == Raised && calls == 0
  {
    var delays, calledWith;
    delays, result, calls, calledWith := Retry(Config(true, 0, 1, 1), args, [Success(v)]);
  }
}
