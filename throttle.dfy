/**
 * Throttlers: objects that stand between a caller and an asynchronous
 * function and decide when the function is actually called.
 *
 * A call is a value of type `C` (the function together with its positional
 * and keyword arguments); its outcome, a value of type `R`, is whatever the
 * function's Deferred eventually fires with, success or failure alike.
 * Submitting a call and one running call completing are separate events.
 */
module Throttle {

  /** `PassThruThrottler.throttle(func, *args, **kwargs)`: call at once and hand back the function's own result. */
  function PassThru<A, R>(func: A -> R, args: A): (r: R)
    ensures r == func(args)
  {
    func(args)
  }

  /**
   * `MaxConcurrentThrottler(max)`. A submitted call is named by its ticket,
   * its position among all submissions. `pending` and `backlog` are the
   * source's fields; `running`, `submitted`, `called` and `results` make the
   * rest of the state explicit: the tickets whose call is in flight, every
   * call passed to `throttle`, every call made to the function in order, and
   * the outcome each settled caller has received.
   */
  class MaxConcurrentThrottler<C, R> {
    const max: int
    var pending: int
    var backlog: seq<nat>
    var running: set<nat>
    var submitted: seq<C>
    var called: seq<C>
    var results: map<nat, R>

    /**
     * `pending` counts the running and the queued calls; the function has
     * been called for a prefix of the submissions, in submission order, and
     * the backlog holds exactly the rest, oldest first; every called ticket
     * is either running or settled; a call waits only while `max` calls run,
     * and no more than `max` ever run.
     */
    ghost predicate Valid()
      reads this
    {
      && pending == |running| + |backlog|
      && |called| + |backlog| == |submitted|
      && called == submitted[..|called|]
      && (forall i :: 0 <= i < |backlog| ==> backlog[i] == |called| + i)
      && (forall t :: t in running ==> t < |called|)
      && (forall t: nat :: t in results <==> t < |called| && t !in running)
      && (backlog != [] ==> |running| >= max)
      && (running == {} || |running| <= max)
    }

    constructor (max: int)
      ensures Valid() && this.max == max
      ensures pending == 0 && backlog == [] && running == {}
      ensures submitted == [] && called == [] && results == map[]
    {
      this.max := max;
      pending := 0;
      backlog := [];
      running := {};
      submitted := [];
      called := [];
      results := map[];
    }

    /**
     * `throttle(call)`: with fewer than `max` calls pending the function is
     * called at once, otherwise the call joins the back of the backlog;
     * either way `pending` grows by one.
     */
    method Throttle(call: C) returns (ticket: nat)
      requires Valid()
      modifies this
      ensures Valid()
      ensures ticket == |old(submitted)| && submitted == old(submitted) + [call]
      ensures pending == old(pending) + 1 && results == old(results)
      ensures old(pending) < max ==>
        called == old(called) + [call] && running == old(running) + {ticket} && backlog == old(backlog)
      ensures old(pending) >= max ==>
        called == old(called) && running == old(running) && backlog == old(backlog) + [ticket]
    {
      ticket := |submitted|;
      submitted := submitted + [call];
      if pending >= max {
        backlog := backlog + [ticket];
      } else {
        DoCall(ticket);
      }
      pending := pending + 1;
    }

    /** `_do_call`: call the function for the next ticket and count it as running. */
    method DoCall(ticket: nat)
      requires ticket == |called| < |submitted| && ticket !in running
      modifies this
      ensures submitted == old(submitted) && results == old(results)
      ensures called == old(called) + [submitted[ticket]] && running == old(running) + {ticket}
      ensures pending == old(pending) && backlog == old(backlog)
    {
      called := called + [submitted[ticket]];
      running := running + {ticket};
    }

    /**
     * `_finish_call`: the running call `ticket` settled with `outcome`. Its
     * caller receives that outcome (a queued caller through
     * `chainDeferred`), `pending` drops by one, the oldest queued call, if
     * any, is started, and the outcome is passed on unchanged.
     */
    method FinishCall(ticket: nat, outcome: R) returns (passthru: R)
      requires Valid() && ticket in running
      modifies this
      ensures Valid()
      ensures passthru == outcome
      ensures results == old(results)[ticket := outcome] && pending == old(pending) - 1
      ensures submitted == old(submitted)
      ensures old(backlog) == [] ==>
        backlog == [] && running == old(running) - {ticket} && called == old(called)
      ensures old(backlog) != [] ==>
        && backlog == old(backlog)[1..]
        && running == old(running) - {ticket} + {old(backlog)[0]}
        && called == old(called) + [submitted[old(backlog)[0]]]
    {
      pending := pending - 1;
      running := running - {ticket};
      results := results[ticket := outcome];
      if backlog != [] {
        var next := backlog[0];
        backlog := backlog[1..];
        DoCall(next);
      }
      passthru := outcome;
    }

    /**
     * No call is pending exactly when every submitted call has been made
     * and every caller has received its outcome.
     */
    function Idle(): (idle: bool)
      reads this
      requires Valid()
      ensures idle <==> |called| == |submitted| && running == {}
      ensures idle ==> forall t: nat :: t in results <==> t < |submitted|
    {
      pending == 0
    }
  }

  /** Five submissions to a throttler that admits three: three calls start, two wait. */
  method SubmitFive<C>(th: MaxConcurrentThrottler<C, int>, call: C)
    requires th.Valid() && th.max == 3 && th.pending == 0 && th.submitted == [] && th.results == map[]
    modifies th
    ensures th.Valid() && th.max == 3 && th.pending == 5 && |th.called| == 3 && th.results == map[]
    ensures th.running == {0, 1, 2} && th.backlog == [3, 4]
  {
    var t := th.Throttle(call);
    t := th.Throttle(call);
    t := th.Throttle(call);
    t := th.Throttle(call);
    t := th.Throttle(call);
  }

  /** The first two completions each start the oldest waiting call. */
  method CompleteTwo<C>(th: MaxConcurrentThrottler<C, int>) returns (calledBetween: int)
    requires th.Valid() && th.max == 3 && th.pending == 5 && |th.called| == 3 && th.results == map[]
    requires th.running == {0, 1, 2} && th.backlog == [3, 4]
    modifies th
    ensures calledBetween == 4
    ensures th.Valid() && th.pending == 3 && |th.called| == 5 && th.running == {2, 3, 4}
    ensures th.results == map[0 := 1, 1 := 1]
  {
    var r := th.FinishCall(0, 1);
    calledBetween := |th.called|;
    r := th.FinishCall(1, 1);
  }

  /** The remaining completions leave nothing pending. */
  method CompleteRest<C>(th: MaxConcurrentThrottler<C, int>)
    requires th.Valid() && th.pending == 3 && th.running == {2, 3, 4}
    requires th.results == map[0 := 1, 1 := 1]
    modifies th
    ensures th.Valid() && th.pending == 0 && th.Idle()
    ensures th.results == map[0 := 1, 1 := 1, 2 := 1, 3 := 1, 4 := 1]
  {
    var r := th.FinishCall(2, 1);
    r := th.FinishCall(3, 1);
    r := th.FinishCall(4, 1);
  }

  /**
   * Five calls through a throttler that admits three: three start at once,
   * each of the first two completions starts the next queued call, and once
   * all five complete nothing is pending and every caller received 1.
   */
  method MaxConcurrentScenario<C>(call: C) returns (calledAfter: seq<int>, pendingAfter: seq<int>, results: map<nat, int>)
    ensures calledAfter == [3, 4, 5] && pendingAfter == [5, 3, 0]
    ensures results == map[0 := 1, 1 := 1, 2 := 1, 3 := 1, 4 := 1]
  {
    var th := new MaxConcurrentThrottler<C, int>(3);
    SubmitFive(th, call);
    calledAfter, pendingAfter := [|th.called|], [th.pending];
    var between := CompleteTwo(th);
    calledAfter, pendingAfter := calledAfter + [between, |th.called|], pendingAfter + [th.pending];
    CompleteRest(th);
    pendingAfter := pendingAfter + [th.pending];
    results := th.results;
  }
}
