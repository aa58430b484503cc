/** The debouncer that delays the pack download until the user stops typing.
    The wall clock is a parameter `now`, and the single-thread scheduler is the
    list of absolute times at which it will run the pending task. */
module Debounce {
  import opened Base

  /** `TimerTask`: a negative due time marks a task that has fired. */
  datatype Task = Task(dueTime: int)

  /** `delayed` is the pending task (`null` is `None`), `wakeups` the
      scheduler's queue, `shutdown` whether `shutdownNow` has run. */
  datatype Debouncer = Debouncer(interval: nat, delayed: Option<Task>, wakeups: seq<nat>, shutdown: bool)

  /** The state after an operation; `fired` says whether the callback ran,
      `rejected` whether the scheduler threw `RejectedExecutionException`. */
  datatype Step = Step(d: Debouncer, fired: bool, rejected: bool)

  datatype Event = CallAt(t: nat) | WakeAt(t: nat)

  function Create(interval: nat): Debouncer {
    Debouncer(interval, None, [], false)
  }

  /** A scheduler that is running has exactly one wake-up queued per pending
      task and none otherwise; a shut-down one has none; a pending task is
      live. */
  predicate Valid(d: Debouncer) {
    && (d.shutdown ==> d.wakeups == [])
    && (!d.shutdown ==> |d.wakeups| == (if d.delayed.Some? then 1 else 0))
    && (d.delayed.Some? ==> d.delayed.value.dueTime >= 0)
  }

  /** `TimerTask.extend()`: push the deadline to `now + interval`, unless the
      task has already fired. */
  function Extend(t: Task, now: nat, interval: nat): (r: (bool, Task))
    ensures r.0 <==> t.dueTime >= 0
    ensures r.0 ==> r.1.dueTime == now + interval
    ensures !r.0 ==> r.1 == t
  {
    if t.dueTime < 0 then (false, t) else (true, Task(now + interval))
  }

  /** `call()`: extend the pending task, or create one and schedule its
      wake-up `interval` ms out. Creating one on a shut-down scheduler
      stores it and then throws. */
  function Call(d: Debouncer, now: nat): (r: Step)
    requires Valid(d)
    ensures Valid(r.d) && !r.fired && r.d.interval == d.interval && r.d.shutdown == d.shutdown
    ensures r.d.delayed == Some(Task(now + d.interval))
    ensures d.delayed.Some? ==> r.d.wakeups == d.wakeups && !r.rejected
    ensures d.delayed.None? && !d.shutdown ==> r.d.wakeups == [now + d.interval] && !r.rejected
    ensures d.delayed.None? && d.shutdown ==> r.rejected
  {
    match d.delayed
    case Some(t) =>
      var (_, t') := Extend(t, now, d.interval);
      Step(d.(delayed := Some(t')), false, false)
    case None =>
      var t := Extend(Task(0), now, d.interval).1;
      if d.shutdown then Step(d.(delayed := Some(t)), false, true)
      else Step(d.(delayed := Some(t), wakeups := d.wakeups + [now + d.interval]), false, false)
  }

  /** The scheduler runs the pending task for its earliest wake-up, if that
      is due by `now` (`TimerTask.run()`): before the deadline it re-queues
      itself for the remaining time, otherwise it fires and clears `delayed`. */
  function Wake(d: Debouncer, now: nat): (r: Step)
    requires Valid(d)
    ensures Valid(r.d) && !r.rejected && r.d.interval == d.interval && r.d.shutdown == d.shutdown
    ensures d.wakeups == [] || d.wakeups[0] > now ==> r == Step(d, false, false)
    ensures d.wakeups != [] && d.wakeups[0] <= now && d.delayed.value.dueTime > now ==>
      !r.fired && r.d.delayed == d.delayed && r.d.wakeups == [now + (d.delayed.value.dueTime - now)]
    ensures d.wakeups != [] && d.wakeups[0] <= now && d.delayed.value.dueTime <= now ==>
      r.fired && r.d.delayed.None? && r.d.wakeups == []
  {
    if d.wakeups == [] || d.wakeups[0] > now then Step(d, false, false)
    else
      var t := d.delayed.value;
      var remaining := t.dueTime - now;
      if remaining > 0 then Step(d.(wakeups := d.wakeups[1..] + [now + remaining]), false, false)
      else Step(d.(delayed := None, wakeups := d.wakeups[1..]), true, false)
  }

  /** `terminate()`: `shutdownNow` drops every queued wake-up for good;
      `delayed` is left as it is. */
  function Terminate(d: Debouncer): (r: Debouncer)
    requires Valid(d)
    ensures Valid(r) && r.shutdown && r.wakeups == [] && r.delayed == d.delayed && r.interval == d.interval
  {
    d.(shutdown := true, wakeups := [])
  }

  /** `finish()`: terminate, then run the callback on the calling thread. */
  function Finish(d: Debouncer): (r: Step)
    requires Valid(d)
    ensures Valid(r.d) && r.fired && r.d.shutdown && r.d.wakeups == []
    ensures r.d.delayed == d.delayed && r.d.interval == d.interval && !r.rejected
  {
    Step(Terminate(d), true, false)
  }

  function Apply(d: Debouncer, e: Event): (r: Step)
    requires Valid(d)
    ensures Valid(r.d)
  {
    match e
    case CallAt(t) => Call(d, t)
    case WakeAt(t) => Wake(d, t)
  }

  /** Runs events in order; returns the final state and the times at which
      the callback ran. */
  function Run(d: Debouncer, events: seq<Event>): (r: (Debouncer, seq<nat>))
    requires Valid(d)
    ensures Valid(r.0) && r.0.interval == d.interval && r.0.shutdown == d.shutdown
    decreases |events|
  {
    if events == [] then (d, [])
    else
      var s := Apply(d, events[0]);
      var rest := Run(s.d, events[1..]);
      (rest.0, (if s.fired then [events[0].t] else []) + rest.1)
  }

  /** The scheduler delivers the queued wake-ups at their times until the
      pending task fires: at most two are needed, the queued one and the one
      it re-queues for the deadline. */
  function Settle(d: Debouncer): (r: (Debouncer, seq<nat>))
    requires Valid(d)
    ensures Valid(r.0)
  {
    if d.wakeups == [] then (d, [])
    else
      var first := Wake(d, d.wakeups[0]);
      if first.fired then (first.d, [d.wakeups[0]])
      else if first.d.wakeups == [] then (first.d, [])
      else
        var second := Wake(first.d, first.d.wakeups[0]);
        (second.d, if second.fired then [first.d.wakeups[0]] else [])
  }

  /** Event times never go backwards, starting from `t0`. */
  predicate Monotone(events: seq<Event>, t0: nat)
    decreases |events|
  {
    events == [] || (t0 <= events[0].t && Monotone(events[1..], events[0].t))
  }

  /** Every call comes less than `interval` after the previous one, the first
      less than `interval` after `prev`. */
  predicate CallsWithin(events: seq<Event>, prev: nat, interval: nat)
    decreases |events|
  {
    if events == [] then true
    else match events[0]
      case CallAt(t) => t < prev + interval && CallsWithin(events[1..], t, interval)
      case WakeAt(_) => CallsWithin(events[1..], prev, interval)
  }

  /** Time of the last call in `events`, `prev` when there is none. */
  function LastCall(events: seq<Event>, prev: nat): nat
    decreases |events|
  {
    if events == [] then prev
    else match events[0]
      case CallAt(t) => LastCall(events[1..], t)
      case WakeAt(_) => LastCall(events[1..], prev)
  }

  predicate NoCalls(events: seq<Event>) {
    forall i :: 0 <= i < |events| ==> events[i].WakeAt?
  }

  /** Calls spaced less than `interval` apart cannot follow a moment at least
      `interval` after the previous call. */
  lemma {:induction false} NoCallsAfterGap(events: seq<Event>, prev: nat, interval: nat, w: nat)
    requires Monotone(events, w) && CallsWithin(events, prev, interval) && w >= prev + interval
    ensures NoCalls(events) && LastCall(events, prev) == prev
    decreases |events|
  {
    if events != [] {
      NoCallsAfterGap(events[1..], prev, interval, events[0].t);
    }
  }

  /** With nothing pending and only wake-ups to come, nothing fires. */
  lemma {:induction false} IdleStaysSilent(d: Debouncer, events: seq<Event>)
    requires Valid(d) && d.delayed.None? && NoCalls(events)
    ensures Run(d, events).1 == [] && Run(d, events).0 == d
    decreases |events|
  {
    if events != [] {
      IdleStaysSilent(d, events[1..]);
    }
  }

  /** The burst invariant: a task pending since the call at `last`, its one
      wake-up no later than its deadline. */
  predicate PendingSince(d: Debouncer, last: nat) {
    && Valid(d) && !d.shutdown
    && d.delayed == Some(Task(last + d.interval))
    && d.wakeups[0] <= last + d.interval
  }

  lemma {:induction false} BurstFrom(d: Debouncer, events: seq<Event>, last: nat)
    requires PendingSince(d, last)
    requires Monotone(events, last) && CallsWithin(events, last, d.interval)
    ensures var (d', fires) := Run(d, events);
      && |fires| <= 1
      && (forall f :: f in fires ==> f >= LastCall(events, last) + d.interval)
      && (fires == [] ==> PendingSince(d', LastCall(events, last)))
    decreases |events|
  {
    if events != [] {
      var e := events[0];
      var s := Apply(d, e);
      match e
      case CallAt(t) =>
        BurstFrom(s.d, events[1..], t);
      case WakeAt(w) =>
        if s.fired {
          NoCallsAfterGap(events[1..], last, d.interval, w);
          IdleStaysSilent(s.d, events[1..]);
        } else {
          BurstFrom(s.d, events[1..], last);
        }
    }
  }

  /** A burst of calls, each less than `interval` after the previous one,
      with the scheduler waking whenever it likes in between, runs the
      callback at most once and never before `interval` after the last call;
      if it has not run yet, the queued wake-ups run it exactly once, exactly
      `interval` after the last call. */
  lemma DebounceBurst(interval: nat, t0: nat, events: seq<Event>)
    requires Monotone(events, t0) && CallsWithin(events, t0, interval)
    ensures var (d, fires) := Run(Call(Create(interval), t0).d, events);
      && |fires| <= 1
      && (forall f :: f in fires ==> f >= LastCall(events, t0) + interval)
      && (fires == [] ==> Settle(d).1 == [LastCall(events, t0) + interval])
  {
    var d := Call(Create(interval), t0).d;
    BurstFrom(d, events, t0);
    var (d', fires) := Run(d, events);
    if fires == [] {
      SettlePending(d', LastCall(events, t0));
    }
  }

  lemma SettlePending(d: Debouncer, last: nat)
    requires PendingSince(d, last)
    ensures Settle(d).1 == [last + d.interval] && Settle(d).0.delayed.None?
  {
  }

  /** A call on an idle debouncer, followed by its wake-ups, runs the callback
      once, `interval` after the call, and leaves it idle again; calls spaced
      at least `interval` apart therefore each get their own run. */
  lemma CallThenSettle(d: Debouncer, now: nat)
    requires Valid(d) && !d.shutdown && d.delayed.None?
    ensures var s := Settle(Call(d, now).d);
      s.1 == [now + d.interval] && s.0.delayed.None? && s.0.wakeups == []
  {
    SettlePending(Call(d, now).d, now);
  }

  /** After `finish()` no wake-up, and no later call, ever runs the callback
      again: the one synchronous run is the only one. A task that was
      pending stays in `delayed`, so a later call extends it without being
      rejected and queues no wake-up. */
  lemma {:induction false} FinishIsFinal(d: Debouncer, now: nat, events: seq<Event>)
    requires Valid(d)
    ensures Finish(d).fired && Finish(d).d.delayed == d.delayed
    ensures Run(Finish(d).d, events).1 == []
    ensures d.delayed.Some? ==>
      var c := Call(Finish(d).d, now);
      !c.rejected && c.d.delayed == Some(Task(now + d.interval)) && c.d.wakeups == [] && Run(c.d, events).1 == []
    decreases |events|
  {
    FinishedStaysSilent(Finish(d).d, events);
    FinishedStaysSilent(Call(Finish(d).d, now).d, events);
  }

  lemma {:induction false} FinishedStaysSilent(d: Debouncer, events: seq<Event>)
    requires Valid(d) && d.shutdown
    ensures Run(d, events).1 == []
    decreases |events|
  {
    if events != [] {
      FinishedStaysSilent(Apply(d, events[0]).d, events[1..]);
    }
  }

  /** The installer's paste: the pasted text's document event calls
      `call()`, then the paste handler calls `finish()`. The task that `call()`
      created stays in `delayed`, so every later edit's `call()` extends that
      orphaned task, whose wake-up `shutdownNow` dropped: no typed edit after
      a paste reaches the download. Only another paste does, because its
      `finish()` runs the callback directly. From an idle debouncer the first
      later `call()` is rejected outright instead. */
  lemma EditAfterPasteIsLost(interval: nat, t0: nat, now: nat, events: seq<Event>)
    ensures var f := Finish(Call(Create(interval), t0).d);
      var c := Call(f.d, now);
      && f.fired && !c.rejected && c.d.delayed == Some(Task(now + interval)) && c.d.wakeups == []
      && Run(c.d, events).1 == []
      && Finish(Run(c.d, events).0).fired
    ensures var c := Call(Finish(Create(interval)).d, now);
      c.rejected && Run(c.d, events).1 == []
  {
    FinishedStaysSilent(Call(Finish(Call(Create(interval), t0).d).d, now).d, events);
    FinishedStaysSilent(Call(Finish(Create(interval)).d, now).d, events);
  }

  /** `finish()` as the debouncer's users evidently intend it: cancel the
      pending task and its wake-ups, run the callback, keep the scheduler. */
  function FinishReusable(d: Debouncer): (r: Step)
    requires Valid(d)
    ensures Valid(r.d) && r.fired && !r.rejected
    ensures r.d.delayed.None? && r.d.wakeups == [] && r.d.shutdown == d.shutdown
  {
    Step(d.(delayed := None, wakeups := []), true, false)
  }

  /** With the corrected `finish()`, the cancelled wake-ups never fire and
      the next call is debounced again as usual. */
  lemma FinishReusableThenCall(d: Debouncer, events: seq<Event>, now: nat)
    requires Valid(d) && !d.shutdown && NoCalls(events)
    ensures Run(FinishReusable(d).d, events).1 == []
    ensures var s := Settle(Call(FinishReusable(d).d, now).d); s.1 == [now + d.interval]
  {
    IdleStaysSilent(FinishReusable(d).d, events);
    CallThenSettle(FinishReusable(d).d, now);
  }
}
