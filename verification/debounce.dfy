/**
 * The debounce wrapper (React-Native hooks/useDebounce.ts): one timer slot
 * that every call clears and refills. Time is an explicit integer clock: a
 * call at time `t` schedules the run for `t + delay`, and the run fires at
 * the first event (another call or a tick) whose time has reached it.
 */
module Debounce {
  import opened Wrappers

  /** The timer slot: empty, or one scheduled run with the arguments it will receive. */
  datatype Pending<A> = Idle | Scheduled(args: A, due: int)

  /** Something that happens to the wrapper: a call with arguments, or the clock reaching a time. */
  datatype Event<A> = Call(callArgs: A, time: int) | Tick(at: int)

  /** The run the slot holds is due by time `now`. */
  predicate Due<A>(p: Pending<A>, now: int) {
    p.Scheduled? && p.due <= now
  }

  /** The clock reaches `now`: a due run fires (with its arguments) and empties the slot. */
  function Fire<A>(p: Pending<A>, now: int): (r: (Pending<A>, Option<A>))
    ensures Due(p, now) ==> r == (Idle, Some(p.args))
    ensures !Due(p, now) ==> r == (p, None)
  {
    if Due(p, now) then (Idle, Some(p.args)) else (p, None)
  }

  /**
   * A call at `now`: clears whatever is pending and schedules exactly one
   * run, `delay` later, with these arguments. Nothing runs at the call.
   */
  function Schedule<A>(p: Pending<A>, args: A, now: int, delay: nat): (r: Pending<A>)
    ensures r.Scheduled? && r.args == args && r.due == now + delay
  {
    Scheduled(args, now + delay)
  }

  /** One event: the clock first reaches its time, then a call replaces the slot. */
  function Step<A>(p: Pending<A>, e: Event<A>, delay: nat): (r: (Pending<A>, Option<A>))
    ensures e.Call? ==> r.0 == Scheduled(e.callArgs, e.time + delay)
    ensures e.Tick? ==> r == Fire(p, e.at)
    ensures r.1.Some? ==> p.Scheduled? && r.1.value == p.args
  {
    match e
    case Call(args, t) => (Schedule(p, args, t, delay), Fire(p, t).1)
    case Tick(t) => Fire(p, t)
  }

  /** A run of events, in order: the final slot and the arguments of every run that fired, in firing order. */
  function Run<A>(p: Pending<A>, events: seq<Event<A>>, delay: nat): (Pending<A>, seq<A>)
  {
    if events == [] then (p, [])
    else
      var before := Run(p, events[..|events| - 1], delay);
      var step := Step(before.0, events[|events| - 1], delay);
      (step.0, before.1 + if step.1.Some? then [step.1.value] else [])
  }

  /** A burst: only calls, each less than `delay` after the previous one. */
  predicate Burst<A>(events: seq<Event<A>>, delay: nat) {
    && (forall i :: 0 <= i < |events| ==> events[i].Call?)
    && (forall i :: 0 < i < |events| ==> events[i - 1].time <= events[i].time < events[i - 1].time + delay)
  }

  /** During a burst nothing fires, and the slot holds the last call's arguments, due `delay` after it. */
  lemma {:induction false} BurstKeepsOnePending<A>(events: seq<Event<A>>, delay: nat)
    requires |events| >= 1 && Burst(events, delay)
    ensures var last := events[|events| - 1];
            Run(Idle, events, delay) == (Scheduled(last.callArgs, last.time + delay), [])
  {
    var prefix := events[..|events| - 1];
    var last := events[|events| - 1];
    if |events| == 1 {
      assert prefix == [];
      assert Run(Idle, prefix, delay) == (Idle, []);
      assert Step(Idle, last, delay) == (Scheduled(last.callArgs, last.time + delay), None);
    } else {
      assert Burst(prefix, delay);
      BurstKeepsOnePending(prefix, delay);
      var prev := prefix[|prefix| - 1];
      assert prev == events[|events| - 2];
      assert !Due(Scheduled(prev.callArgs, prev.time + delay), last.time);
    }
    assert Run(Idle, events, delay).0 == Step(Run(Idle, prefix, delay).0, last, delay).0;
    assert Step(Run(Idle, prefix, delay).0, last, delay).1 == None;
    assert Run(Idle, events, delay).1 == Run(Idle, prefix, delay).1;
  }

  /**
   * A burst of calls followed by at least `delay` of quiet runs the callback
   * exactly once, with the arguments of the most recent call, and leaves
   * the slot empty.
   */
  lemma BurstRunsOnce<A>(events: seq<Event<A>>, delay: nat, quietUntil: int)
    requires |events| >= 1 && Burst(events, delay)
    requires quietUntil >= events[|events| - 1].time + delay
    ensures Run(Idle, events + [Tick(quietUntil)], delay) == (Idle, [events[|events| - 1].callArgs])
  {
    BurstKeepsOnePending(events, delay);
    var all := events + [Tick(quietUntil)];
    assert all[..|all| - 1] == events;
    assert all[|all| - 1] == Tick(quietUntil);
    var last := events[|events| - 1];
    assert Step(Run(Idle, events, delay).0, Tick(quietUntil), delay) == (Idle, Some(last.callArgs));
    assert Run(Idle, all, delay).0 == Idle;
    assert Run(Idle, all, delay).1 == Run(Idle, events, delay).1 + [last.callArgs] == [last.callArgs];
  }

  /** Before the delay has passed, the clock fires nothing. */
  lemma NothingBeforeDelay<A>(p: Pending<A>, args: A, t: int, delay: nat, now: int)
    requires now < t + delay
    ensures Fire(Schedule(p, args, t, delay), now) == (Schedule(p, args, t, delay), None)
  {
  }

  /** A call after a run has fired starts afresh: the new slot does not depend on what ran before. */
  lemma FreshAfterRun<A>(p: Pending<A>, now: int, args: A, t: int, delay: nat)
    requires Due(p, now)
    ensures var (q, fired) := Fire(p, now);
            fired == Some(p.args) && Schedule(q, args, t, delay) == Schedule(Idle, args, t, delay)
  {
  }

  /**
   * A call that comes after the pending run was due does not lose it: that
   * run has fired, with its own arguments, before the call reschedules.
   */
  lemma LateCallRunsPending<A>(p: Pending<A>, args: A, now: int, delay: nat)
    requires Due(p, now)
    ensures Step(p, Call(args, now), delay) == (Scheduled(args, now + delay), Some(p.args))
  {
  }

  /** The wrapper returned by `useDebounce(callback, delay)`, with its timer slot. */
  class Debouncer<A> {
    const delay: nat
    var timer: Pending<A>

    constructor (delay: nat)
      ensures this.delay == delay && timer == Idle
    {
      this.delay := delay;
      timer := Idle;
    }

    /**
     * The wrapper is called: a run already due by `now` has fired before
     * the call (its arguments are returned); then the timer is cleared and
     * set anew. The new run does not fire now.
     */
    method Invoke(args: A, now: int) returns (fired: Option<A>)
      modifies this
      ensures (timer, fired) == Step(old(timer), Call(args, now), delay)
    {
      fired := Tick(now);
      timer := Scheduled(args, now + delay);
    }

    /** The clock reaches `now`; returns the arguments the callback runs with, if the timer fired. */
    method Tick(now: int) returns (fired: Option<A>)
      modifies this
      ensures (timer, fired) == Fire(old(timer), now)
    {
      if timer.Scheduled? && timer.due <= now {
        fired := Some(timer.args);
        timer := Idle;
      } else {
        fired := None;
      }
    }
  }
}
