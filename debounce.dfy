/** The debounce hook (app/controllers/hooks/useDebounce.ts) as a timer state
    machine over an abstract clock. A render with a new value or delay runs
    the effect again: its cleanup clears the pending timer and a new one is
    set. A timer fires once the clock reaches its due time, as the test
    suite's fake timers do. */
module Debounce {
  import opened Optional

  /** A pending `setTimeout`: the value it will publish and when. */
  datatype Timer<T> = Timer(value: T, due: nat)

  class Debouncer<T(==)> {
    /** The `value` and `delay` of the latest render. */
    var value: T
    var delay: nat
    /** `debouncedValue`, what the hook returns. */
    var output: T
    var pending: Option<Timer<T>>
    var now: nat
    var mounted: bool

    /** The timer always carries the latest value and is never overdue; once
        nothing is pending, a mounted hook shows the latest value; after
        teardown nothing is pending. */
    predicate Valid()
      reads this
    {
      && (pending.Some? ==> pending.value.value == value && now <= pending.value.due)
      && (mounted && pending.None? ==> output == value)
      && (!mounted ==> pending.None?)
    }

    /** The first render at time `start`: the state starts at the value and
        the effect sets the first timer. */
    constructor Mount(initial: T, d: nat, start: nat)
      ensures Valid()
      ensures output == initial && value == initial && delay == d
      ensures pending == Some(Timer(initial, start + d)) && now == start && mounted
    {
      value := initial;
      delay := d;
      output := initial;
      now := start;
      pending := Some(Timer(initial, start + d));
      mounted := true;
    }

    /** A re-render with `v` and `d`. The effect re-runs only when one of its
        dependencies changed: the old timer is cleared and a fresh one set.
        The output does not change. */
    method Render(v: T, d: nat)
      requires Valid() && mounted
      modifies this
      ensures Valid() && mounted
      ensures value == v && delay == d && output == old(output) && now == old(now)
      ensures v != old(value) || d != old(delay) ==> pending == Some(Timer(v, now + d))
      ensures v == old(value) && d == old(delay) ==> pending == old(pending)
    {
      if v != value || d != delay {
        pending := None;
        value := v;
        delay := d;
        pending := Some(Timer(v, now + d));
      }
    }

    /** The clock advances by `dt`; a timer that has come due fires and
        publishes its value. */
    method Tick(dt: nat)
      requires Valid()
      modifies this
      ensures Valid()
      ensures now == old(now) + dt && value == old(value) && delay == old(delay)
      ensures mounted == old(mounted)
      ensures old(pending).Some? && old(pending).value.due <= now ==>
        output == old(pending).value.value && output == value && pending.None?
      ensures old(pending).None? || now < old(pending).value.due ==>
        output == old(output) && pending == old(pending)
    {
      now := now + dt;
      if pending.Some? && pending.value.due <= now {
        output := pending.value.value;
        pending := None;
      }
    }

    /** Unmount: the cleanup clears the pending timer. */
    method Teardown()
      requires Valid()
      modifies this
      ensures Valid() && !mounted && pending.None?
      ensures output == old(output) && value == old(value) && now == old(now)
    {
      pending := None;
      mounted := false;
    }
  }

  /** The first render returns the initial value at once. */
  method InitialValueScenario() returns (shown: string)
    ensures shown == "initial"
  {
    var hook := new Debouncer.Mount("initial", 500, 0);
    shown := hook.output;
  }

  /** A change keeps the old value until 500 ms have passed, then shows the
      new one. */
  method DebounceScenario() returns (before: string, after: string)
    ensures before == "initial" && after == "changed"
  {
    var hook := new Debouncer.Mount("initial", 500, 0);
    hook.Tick(0);
    hook.Render("changed", 500);
    before := hook.output;
    hook.Tick(500);
    after := hook.output;
  }

  /** Two changes in a row: the first timer is cancelled, the intermediate
      value is never shown, and the last value wins. */
  method CancelScenario() returns (shown: seq<string>)
    ensures shown == ["initial", "changed2"]
  {
    var hook := new Debouncer.Mount("initial", 500, 0);
    hook.Render("changed1", 500);
    hook.Render("changed2", 500);
    shown := [hook.output];
    hook.Tick(499);
    hook.Tick(1);
    shown := shown + [hook.output];
  }

  /** Re-rendering with the same value does not restart the timer, so it
      still fires at its original time. */
  method SameValueScenario() returns (shown: string)
    ensures shown == "changed"
  {
    var hook := new Debouncer.Mount("initial", 500, 0);
    hook.Render("changed", 500);
    hook.Tick(300);
    hook.Render("changed", 500);
    hook.Tick(200);
    shown := hook.output;
  }

  /** After teardown a pending change is never published. */
  method TeardownScenario() returns (shown: string)
    ensures shown == "initial"
  {
    var hook := new Debouncer.Mount("initial", 500, 0);
    hook.Render("changed", 500);
    hook.Teardown();
    hook.Tick(1000);
    shown := hook.output;
  }
}
