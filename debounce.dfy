/** src/utils/debounce.ts over an abstract timer table.

    The browser's `setTimeout`/`clearTimeout` are modelled as a table of
    pending single-shot timers on a logical clock: handles are positive and
    handed out in increasing order, and a tick moves the clock by one unit and
    fires every timer that has become due. No real time is involved. */
module Timers {
  import opened JsValues

  /** A pending single-shot timer: when it is due and what runs then. */
  datatype Timer<A> = Timer(deadline: nat, action: A)

  /** The timer table: the logical time, the next handle `setTimeout` hands
      out, and the timers still pending, by handle. */
  datatype Table<A> = Table(now: nat, next: nat, pending: map<nat, Timer<A>>)

  /** Handles are positive (so always truthy), every pending handle was handed
      out already, and no pending timer is overdue. */
  predicate WellFormed<A>(t: Table<A>) {
    && 1 <= t.next
    && forall h :: h in t.pending ==> 1 <= h < t.next && t.now <= t.pending[h].deadline
  }

  /** `clearTimeout(h)`: drops the timer if it is pending; a fired, cancelled or
      unknown handle changes nothing. */
  function Cancelled<A>(t: Table<A>, h: nat): (r: Table<A>)
    ensures r.now == t.now && r.next == t.next
    ensures r.pending.Keys == t.pending.Keys - {h}
    ensures forall k :: k in r.pending ==> r.pending[k] == t.pending[k]
    ensures h !in t.pending ==> r == t
    ensures WellFormed(t) ==> WellFormed(r)
  {
    t.(pending := t.pending - {h})
  }

  /** `setTimeout(action, wait)`: registers a timer under a fresh, truthy handle
      that is due `wait` units from now, and returns that handle. */
  function Armed<A>(t: Table<A>, action: A, wait: nat): (r: (Table<A>, nat))
    requires WellFormed(t)
    ensures WellFormed(r.0) && r.0.now == t.now && r.0.next == t.next + 1
    ensures r.1 == t.next && r.1 != 0 && r.1 !in t.pending
    ensures r.0.pending.Keys == t.pending.Keys + {r.1}
    ensures r.0.pending[r.1] == Timer(t.now + wait, action)
    ensures forall k :: k in t.pending ==> r.0.pending[k] == t.pending[k]
  {
    var h := t.next;
    (t.(next := h + 1, pending := t.pending[h := Timer(t.now + wait, action)]), h)
  }

  /** `debounce(func, wait, interval)`: cancels `interval` when it is truthy,
      then arms `func` and returns the new handle. Every other pending timer
      is left as it was. */
  function Debounced<A>(t: Table<A>, func: A, wait: nat, interval: Option<nat>): (r: (Table<A>, nat))
    requires WellFormed(t)
    ensures WellFormed(r.0) && r.0.now == t.now && r.0.next == t.next + 1
    ensures r.1 == t.next && r.1 != 0 && r.1 !in t.pending
    ensures r.0.pending.Keys == KeptKeys(t, interval) + {r.1}
    ensures r.0.pending[r.1] == Timer(t.now + wait, func)
    ensures forall k :: k in r.0.pending && k != r.1 ==> k in t.pending && r.0.pending[k] == t.pending[k]
  {
    var cleared := if TruthyHandle(interval) then Cancelled(t, interval.value) else t;
    Armed(cleared, func, wait)
  }

  /** The handles in `lo..hi` whose timers are due at `time`, in increasing
      order. */
  function DueHandles<A>(p: map<nat, Timer<A>>, time: nat, lo: nat, hi: nat): (r: seq<nat>)
    ensures forall i :: 0 <= i < |r| ==> lo <= r[i] < hi && r[i] in p && p[r[i]].deadline <= time
    ensures forall h {:trigger h in r} :: lo <= h < hi && h in p && p[h].deadline <= time ==> h in r
    ensures forall i, j :: 0 <= i < j < |r| ==> r[i] < r[j]
    ensures (forall h :: lo <= h < hi && h in p ==> time < p[h].deadline) ==> r == []
    decreases hi
  {
    if hi <= lo then []
    else
      DueHandles(p, time, lo, hi - 1)
      + (if hi - 1 in p && p[hi - 1].deadline <= time then [hi - 1] else [])
  }

  /** The handles that fire at the next tick, in the order they fire. */
  function Due<A>(t: Table<A>): seq<nat> {
    DueHandles(t.pending, t.now + 1, 1, t.next)
  }

  /** One tick of the event loop: the clock moves on by one, every timer that
      has become due leaves the table, and their actions are returned in
      handle order; the timers not yet due stay as they were. */
  function Ticked<A>(t: Table<A>): (r: (Table<A>, seq<A>))
    requires WellFormed(t)
    ensures WellFormed(r.0) && r.0.now == t.now + 1 && r.0.next == t.next
    ensures forall h :: h in t.pending ==> (h in r.0.pending <==> t.now + 1 < t.pending[h].deadline)
    ensures forall h :: h in r.0.pending ==> h in t.pending && r.0.pending[h] == t.pending[h]
    ensures |r.1| == |Due(t)|
    ensures forall i :: 0 <= i < |r.1| ==> Due(t)[i] in t.pending && r.1[i] == t.pending[Due(t)[i]].action
  {
    var due := Due(t);
    var later := map h | h in t.pending && t.now + 1 < t.pending[h].deadline :: t.pending[h];
    (Table(t.now + 1, t.next, later), seq(|due|, i requires 0 <= i < |due| => t.pending[due[i]].action))
  }

  /** Ticked, spelled out for the table's Tick method. */
  lemma TickedIs<A>(t: Table<A>, fired: seq<A>)
    requires WellFormed(t)
    requires |fired| == |Due(t)|
    requires forall i :: 0 <= i < |fired| ==> Due(t)[i] in t.pending && fired[i] == t.pending[Due(t)[i]].action
    ensures Ticked(t)
         == (Table(t.now + 1, t.next, map k | k in t.pending && t.now + 1 < t.pending[k].deadline :: t.pending[k]), fired)
  {
    assert Ticked(t).1 == fired;
  }

  /** A pending timer fires at the tick that reaches its deadline and is then
      gone; until then it stays pending, unchanged. */
  lemma FiresAtDeadline<A>(t: Table<A>, h: nat)
    requires WellFormed(t) && h in t.pending
    ensures h in Due(t) <==> t.pending[h].deadline <= t.now + 1
    ensures h in Due(t) <==> h !in Ticked(t).0.pending
    ensures h !in Due(t) ==> Ticked(t).0.pending[h] == t.pending[h]
  {
  }

  /** A handle that has fired or been cancelled never fires again: no tick
      fires it and neither `debounce` nor a tick brings it back. */
  lemma GoneForGood<A>(t: Table<A>, h: nat, func: A, wait: nat, interval: Option<nat>)
    requires WellFormed(t) && h < t.next && h !in t.pending
    ensures h !in Due(t)
    ensures h !in Ticked(t).0.pending
    ensures h !in Debounced(t, func, wait, interval).0.pending
    ensures h !in Cancelled(t, h).pending
  {
  }

  /** A strictly increasing sequence of naturals spans at least its length. */
  lemma {:induction false} IncreasingSpan(s: seq<nat>)
    requires |s| > 0
    requires forall i, j :: 0 <= i < j < |s| ==> s[i] < s[j]
    ensures s[0] + |s| - 1 <= s[|s| - 1]
  {
    if |s| > 1 {
      IncreasingSpan(s[..|s| - 1]);
      assert s[|s| - 2] < s[|s| - 1];
    }
  }

  /** When only `h` is due, exactly `h` fires. */
  lemma DueIsSingle<A>(t: Table<A>, h: nat)
    requires WellFormed(t) && h in t.pending && t.pending[h].deadline <= t.now + 1
    requires forall k :: k in t.pending && k != h ==> t.now + 1 < t.pending[k].deadline
    ensures Due(t) == [h]
  {
    var due := Due(t);
    assert h in due;
    IncreasingSpan(due);
  }

  /** When nothing is due, a tick only moves the clock. */
  lemma IdleTick<A>(t: Table<A>)
    requires WellFormed(t)
    requires forall k :: k in t.pending ==> t.now + 1 < t.pending[k].deadline
    ensures Ticked(t) == (t.(now := t.now + 1), [])
  {
    assert Ticked(t).0.pending == t.pending;
  }

  /** Successive `debounce` calls where each call receives the handle the
      previous one returned, as App.tsx threads its `interval` state. Returns
      the final table and the handles the calls returned. */
  function DebounceChain<A>(t: Table<A>, funcs: seq<A>, wait: nat, interval: Option<nat>): (r: (Table<A>, seq<nat>))
    requires WellFormed(t)
    ensures WellFormed(r.0) && r.0.now == t.now && r.0.next == t.next + |funcs|
    ensures |r.1| == |funcs| && forall i :: 0 <= i < |r.1| ==> r.1[i] == t.next + i
    decreases |funcs|
  {
    if funcs == [] then (t, [])
    else
      var first := Debounced(t, funcs[0], wait, interval);
      var rest := DebounceChain(first.0, funcs[1..], wait, Some(first.1));
      (rest.0, [first.1] + rest.1)
  }

  /** The handles still pending after `debounce` cancels `interval`. */
  function KeptKeys<A>(t: Table<A>, interval: Option<nat>): set<nat> {
    if TruthyHandle(interval) then t.pending.Keys - {interval.value} else t.pending.Keys
  }

  /** What a threaded chain leaves pending: the previous timers minus the
      incoming `interval`, plus the last timer of the chain, which carries the
      last `func`; the timers kept are unchanged. */
  lemma {:induction false} ChainPending<A>(t: Table<A>, funcs: seq<A>, wait: nat, interval: Option<nat>)
    returns (t': Table<A>, last: nat)
    requires WellFormed(t) && funcs != []
    ensures t' == DebounceChain(t, funcs, wait, interval).0
    ensures last == DebounceChain(t, funcs, wait, interval).1[|funcs| - 1]
    ensures t'.pending.Keys == KeptKeys(t, interval) + {last}
    ensures t'.pending[last] == Timer(t.now + wait, funcs[|funcs| - 1])
    ensures forall k :: k in t'.pending && k != last ==> t'.pending[k] == t.pending[k]
    decreases |funcs|
  {
    var first := Debounced(t, funcs[0], wait, interval);
    var rest := funcs[1..];
    if rest == [] {
      assert DebounceChain(first.0, rest, wait, Some(first.1)) == (first.0, []);
      t', last := first.0, first.1;
    } else {
      t', last := ChainPending(first.0, rest, wait, Some(first.1));
      assert rest[|rest| - 1] == funcs[|funcs| - 1];
      ChainStep(t, first.0, first.1, interval, t', last);
    }
  }

  /** One step of ChainPending: the timer the first call armed is cancelled by
      the second call. */
  lemma ChainStep<A>(t: Table<A>, t1: Table<A>, h: nat, interval: Option<nat>, t': Table<A>, last: nat)
    requires t1.pending.Keys == KeptKeys(t, interval) + {h} && h !in t.pending
    requires forall k :: k in t1.pending && k != h ==> t1.pending[k] == t.pending[k]
    requires t'.pending.Keys == KeptKeys(t1, Some(h)) + {last} && h != 0 && h != last
    requires forall k :: k in t'.pending && k != last ==> t'.pending[k] == t1.pending[k]
    ensures t'.pending.Keys == KeptKeys(t, interval) + {last}
    ensures forall k :: k in t'.pending && k != last ==> t'.pending[k] == t.pending[k]
  {
    assert KeptKeys(t1, Some(h)) == KeptKeys(t, interval);
  }

  /** At most one timer of a threaded chain is pending, the last one; the
      handles the earlier calls returned are all cancelled. */
  lemma ChainLeavesOnlyLast<A>(t: Table<A>, funcs: seq<A>, wait: nat, interval: Option<nat>)
    requires WellFormed(t) && funcs != []
    ensures var (t', hs) := DebounceChain(t, funcs, wait, interval);
      && hs[|hs| - 1] in t'.pending
      && forall i :: 0 <= i < |hs| - 1 ==> hs[i] !in t'.pending
  {
    var t', last := ChainPending(t, funcs, wait, interval);
  }

  /** The host's timer table, updated in place by `setTimeout`,
      `clearTimeout` and the passing of time. */
  class TimerTable<A> {
    var now: nat
    var next: nat
    var pending: map<nat, Timer<A>>

    function State(): Table<A>
      reads this
    {
      Table(now, next, pending)
    }

    predicate Valid()
      reads this
    {
      WellFormed(State())
    }

    constructor ()
      ensures Valid() && State() == Table(0, 1, map[])
    {
      now, next, pending := 0, 1, map[];
    }

    method ClearTimeout(h: nat)
      requires Valid()
      modifies this
      ensures Valid() && State() == Cancelled(old(State()), h)
    {
      pending := pending - {h};
    }

    method SetTimeout(action: A, wait: nat) returns (h: nat)
      requires Valid()
      modifies this
      ensures Valid() && (State(), h) == Armed(old(State()), action, wait)
    {
      h := next;
      pending := pending[h := Timer(now + wait, action)];
      next := next + 1;
    }

    /** Advances the clock by one unit and returns, in handle order, the
        actions of the timers that became due; they leave the table. */
    method Tick() returns (fired: seq<A>)
      requires Valid()
      modifies this
      ensures Valid() && (State(), fired) == Ticked(old(State()))
    {
      var time := now + 1;
      ghost var due: seq<nat> := [];
      fired := [];
      var h := 1;
      while h < next
        invariant 1 <= h <= next
        invariant due == DueHandles(pending, time, 1, h)
        invariant |fired| == |due|
        invariant forall i :: 0 <= i < |due| ==> due[i] in pending && fired[i] == pending[due[i]].action
      {
        assert DueHandles(pending, time, 1, h + 1)
            == due + (if h in pending && pending[h].deadline <= time then [h] else []);
        if h in pending && pending[h].deadline <= time {
          due := due + [h];
          fired := fired + [pending[h].action];
        }
        h := h + 1;
      }
      TickedIs(State(), fired);
      pending := map k | k in pending && time < pending[k].deadline :: pending[k];
      now := time;
    }
  }

  /** debounce.ts: cancel the previous handle if it is truthy, then arm `func`
      and return the new handle. The callback's `interval = null` assigns the
      parameter only, so firing does not change the caller's stored handle;
      it has no counterpart here. */
  method Debounce<A>(timers: TimerTable<A>, func: A, wait: nat, interval: Option<nat>) returns (handle: nat)
    requires timers.Valid()
    modifies timers
    ensures timers.Valid()
    ensures (timers.State(), handle) == Debounced(old(timers.State()), func, wait, interval)
  {
    if TruthyHandle(interval) {
      timers.ClearTimeout(interval.value);
    }
    handle := timers.SetTimeout(func, wait);
  }
}
