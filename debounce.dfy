/**
 * `debounce(func, wait, immediate)`: a wrapper with one pending timer. Time is not
 * modelled; the timer's expiry is an explicit step. The arguments with which the
 * wrapped function runs are what each step returns.
 */
module Debounce {
  import opened Wrappers

  /** The outcome of one step: the new pending timer (holding the arguments its `later`
    * closure captured) and the arguments `func` ran with during the step, if it ran. */
  datatype Step<A> = Step(pending: Option<A>, fired: Option<A>)

  /** A call of the debounced function: the timer is (re)started with these arguments; in
    * immediate mode `func` runs now, but only if no timer was pending. */
  function CallStep<A>(immediate: bool, pending: Option<A>, args: A): (r: Step<A>)
    ensures r.pending == Some(args)
    ensures r.fired.Some? <==> immediate && pending.None?
    ensures r.fired.Some? ==> r.fired.value == args
  {
    Step(Some(args), if immediate && pending.None? then Some(args) else None)
  }

  /** The pending timer expires: it is cleared and, unless in immediate mode, `func` runs
    * with the arguments of the call that started it. No timer, no effect. */
  function ExpireStep<A>(immediate: bool, pending: Option<A>): (r: Step<A>)
    ensures r.pending == None
    ensures r.fired.Some? <==> !immediate && pending.Some?
    ensures r.fired.Some? ==> r.fired == pending
  {
    Step(None, if !immediate && pending.Some? then pending else None)
  }

  datatype Event<A> = Call(args: A) | Expire

  /** A run of events: the final pending timer and every argument `func` ran with, in order. */
  datatype Trace<A> = Trace(pending: Option<A>, fired: seq<A>)

  /** `v` was handed to the wrapper: it is the pending timer's arguments at the start, or the
    * arguments of one of the calls. */
  ghost predicate Given<A>(pending: Option<A>, events: seq<Event<A>>, v: A) {
    pending == Some(v) || exists j :: 0 <= j < |events| && events[j] == Call(v)
  }

  /** What was handed over after the first event, starting from the timer it leaves, was
    * handed over for the whole run. */
  lemma GivenAfterFirst<A>(pending: Option<A>, events: seq<Event<A>>, next: Option<A>)
    requires events != []
    requires next == None || next == pending || (events[0].Call? && next == Some(events[0].args))
    ensures forall v :: Given(next, events[1..], v) ==> Given(pending, events, v)
  {
    forall v | Given(next, events[1..], v)
      ensures Given(pending, events, v)
    {
      if next == Some(v) {
        if next != pending {
          assert events[0] == Call(v);
        }
      } else {
        var j :| 0 <= j < |events[1..]| && events[1..][j] == Call(v);
        assert events[j + 1] == Call(v);
      }
    }
  }

  /** `func` runs at most once per event, and only ever with arguments the wrapper was given;
    * the timer left pending also holds such arguments. */
  function Run<A>(immediate: bool, pending: Option<A>, events: seq<Event<A>>): (r: Trace<A>)
    ensures |r.fired| <= |events|
    ensures forall k :: 0 <= k < |r.fired| ==> Given(pending, events, r.fired[k])
    ensures r.pending.Some? ==> Given(pending, events, r.pending.value)
    decreases |events|
  {
    if events == [] then Trace(pending, [])
    else
      var s := match events[0]
        case Call(a) => CallStep(immediate, pending, a)
        case Expire => ExpireStep(immediate, pending);
      var rest := Run(immediate, s.pending, events[1..]);
      GivenAfterFirst(pending, events, s.pending);
      assert s.fired.Some? ==> Given(pending, events, s.fired.value) by {
        if s.fired.Some? && events[0].Call? {
          assert events[0] == Call(s.fired.value);
        }
      }
      Trace(rest.pending, (if s.fired.Some? then [s.fired.value] else []) + rest.fired)
  }

  /** A burst of calls with the given arguments. */
  function Calls<A>(args: seq<A>): (r: seq<Event<A>>)
    ensures |r| == |args|
    ensures forall i :: 0 <= i < |args| ==> r[i] == Call(args[i])
  {
    if args == [] then [] else [Call(args[0])] + Calls(args[1..])
  }

  /** A burst of calls runs nothing in trailing mode and leaves one timer holding the last
    * call's arguments. */
  lemma {:induction false} TrailingBurst<A>(pending: Option<A>, args: seq<A>, tail: seq<Event<A>>)
    requires args != []
    ensures Run(false, pending, Calls(args) + tail) == Run(false, Some(args[|args| - 1]), tail)
    decreases |args|
  {
    var evs := Calls(args) + tail;
    assert evs[0] == Call(args[0]);
    if |args| > 1 {
      assert evs[1..] == Calls(args[1..]) + tail;
      TrailingBurst(Some(args[0]), args[1..], tail);
    } else {
      assert evs[1..] == tail;
    }
  }

  /** Calls followed by a quiet period: `func` runs exactly once, with the last call's
    * arguments, and no timer is left. */
  lemma TrailingFiresLast<A>(pending: Option<A>, args: seq<A>)
    requires args != []
    ensures Run(false, pending, Calls(args) + [Expire]) == Trace(None, [args[|args| - 1]])
  {
    TrailingBurst(pending, args, [Expire]);
  }

  /** In immediate mode a burst runs `func` at most once, at its first call and only when no
    * timer was pending; the expiry runs nothing. */
  lemma {:induction false} ImmediateBurst<A>(pending: Option<A>, args: seq<A>)
    requires args != []
    ensures Run(true, pending, Calls(args) + [Expire])
            == Trace(None, if pending.None? then [args[0]] else [])
    decreases |args|
  {
    var evs := Calls(args) + [Expire];
    assert evs[0] == Call(args[0]);
    if |args| > 1 {
      assert evs[1..] == Calls(args[1..]) + [Expire];
      ImmediateBurst(Some(args[0]), args[1..]);
    } else {
      assert evs[1..] == [Expire];
      assert Run(true, Some(args[0]), [Expire]) == Trace(None, []) by {
        var ex: seq<Event<A>> := [Expire];
        assert ex[1..] == [];
      }
    }
  }

  /** The wrapper: `timeout` and the arguments its pending `later` holds. */
  class Debouncer<A> {
    const immediate: bool
    var pending: Option<A>

    constructor(immediate: bool)
      ensures this.immediate == immediate && pending == None
    {
      this.immediate := immediate;
      pending := None;
    }

    /** The returned function, called with `args`. */
    method Call(args: A) returns (fired: Option<A>)
      modifies this
      ensures CallStep(immediate, old(pending), args) == Step(pending, fired)
    {
      var callNow := immediate && pending.None?;
      pending := Some(args);
      if callNow {
        fired := Some(args);
      } else {
        fired := None;
      }
    }

    /** The timer set by the last call expires. */
    method Expire() returns (fired: Option<A>)
      modifies this
      ensures ExpireStep(immediate, old(pending)) == Step(pending, fired)
    {
      var args := pending;
      pending := None;
      if !immediate && args.Some? {
        fired := args;
      } else {
        fired := None;
      }
    }
  }
}
