/** src/App.tsx: the host page that owns the text, the debounced query, the
    timer handle, the candidate list and the selection, and feeds them to the
    combobox.

    The fetch itself (axios against a placeholder web service) is not part of
    the model: issuing it is an output (`Request`) and its completion an input
    (`FetchOutcome`) that the environment chooses. */
module Host {
  import opened JsValues
  import opened Timers
  import opened Select

  /** The debounce delay App.tsx passes, in clock units. */
  const Wait: nat := 500

  /** The `message` prop App.tsx passes to the combobox ("no data" in Korean). */
  const NoDataMessage: string :=
    "\U{B370}\U{C774}\U{D130}\U{AC00} \U{C5C6}\U{C2B5}\U{B2C8}\U{B2E4}."

  /** The deferred `setDebouncedValue(value)` the debounce timer runs. */
  datatype Update = SetDebounced(value: string)

  /** One record of the placeholder service (`IAxiosData`). */
  datatype Todo = Todo(userId: int, id: int, title: string, completed: bool)

  /** How a fetch ends: a truthy payload of records, a falsy payload, or an
      exception (a rejected request, or a truthy payload that is not an array,
      on which `list.map` throws). */
  datatype FetchOutcome = Payload(records: seq<Todo>) | FalsyPayload | Failure

  /** The request `getFakeData` sends: the query it was called with and the
      `userId` it puts in the URL. */
  datatype Request = Request(query: string, userId: int)

  // ---------------------------------------------------------------------
  // The query key: `debouncedValue.split("").reduce(acc + charCodeAt)`.
  // ---------------------------------------------------------------------

  /** The UTF-16 code units of one character: itself below 0x10000, else a
      surrogate pair. */
  function CodeUnits(c: char): (r: seq<int>)
    ensures 1 <= |r| <= 2 && (|r| == 2 <==> c as int >= 0x10000)
    ensures c as int < 0x10000 ==> r == [c as int]
    ensures forall i :: 0 <= i < |r| ==> 0 <= r[i] < 0x10000
  {
    if c as int < 0x10000 then [c as int]
    else
      var v := c as int - 0x10000;
      [0xD800 + v / 0x400, 0xDC00 + v % 0x400]
  }

  /** A surrogate pair is a high then a low surrogate and decodes back to the
      character, so no information is lost. */
  lemma CodeUnitsDecode(c: char)
    requires c as int >= 0x10000
    ensures 0xD800 <= CodeUnits(c)[0] < 0xDC00 <= CodeUnits(c)[1] < 0xE000
    ensures (CodeUnits(c)[0] - 0xD800) * 0x400 + (CodeUnits(c)[1] - 0xDC00) + 0x10000 == c as int
  {
  }

  /** The code units JavaScript's `split("")` yields, in order. */
  function Utf16(s: string): (r: seq<int>)
    ensures |s| <= |r| <= 2 * |s|
    ensures forall i :: 0 <= i < |r| ==> 0 <= r[i] < 0x10000
  {
    if s == [] then [] else CodeUnits(s[0]) + Utf16(s[1..])
  }

  /** `reduce((acc, cur) => acc += cur.charCodeAt(0), acc)`: a left fold. */
  function SumFrom(acc: int, units: seq<int>): (r: int)
    requires forall i :: 0 <= i < |units| ==> 0 <= units[i] < 0x10000
    ensures acc <= r <= acc + 0xFFFF * |units|
    decreases |units|
  {
    if units == [] then acc else SumFrom(acc + units[0], units[1..])
  }

  /** The keyword: the sum of the string's UTF-16 code units. */
  function Keyword(s: string): (k: nat)
    ensures k <= 0xFFFF * 2 * |s|
  {
    SumFrom(0, Utf16(s))
  }

  /** The `userId` in the request URL: `keyword % 10 + 1`. */
  function UserId(s: string): (id: int)
    ensures 1 <= id <= 10
    ensures id - 1 == Keyword(s) % 10
  {
    Keyword(s) % 10 + 1
  }

  lemma {:induction false} Utf16Append(s: string, t: string)
    ensures Utf16(s + t) == Utf16(s) + Utf16(t)
    decreases |s|
  {
    if s != [] {
      assert (s + t)[1..] == s[1..] + t;
      Utf16Append(s[1..], t);
    } else {
      assert s + t == t;
    }
  }

  lemma {:induction false} SumFromShift(acc: int, units: seq<int>)
    requires forall i :: 0 <= i < |units| ==> 0 <= units[i] < 0x10000
    ensures SumFrom(acc, units) == acc + SumFrom(0, units)
    decreases |units|
  {
    if units != [] {
      SumFromShift(acc + units[0], units[1..]);
      SumFromShift(units[0], units[1..]);
    }
  }

  lemma {:induction false} SumFromAppend(acc: int, a: seq<int>, b: seq<int>)
    requires forall i :: 0 <= i < |a| ==> 0 <= a[i] < 0x10000
    requires forall i :: 0 <= i < |b| ==> 0 <= b[i] < 0x10000
    ensures SumFrom(acc, a + b) == SumFrom(SumFrom(acc, a), b)
    decreases |a|
  {
    if a != [] {
      assert (a + b)[1..] == a[1..] + b;
      SumFromAppend(acc + a[0], a[1..], b);
    } else {
      assert a + b == b;
    }
  }

  /** The keyword of a concatenation is the sum of the keywords. */
  lemma KeywordAppend(s: string, t: string)
    ensures Keyword(s + t) == Keyword(s) + Keyword(t)
  {
    Utf16Append(s, t);
    SumFromAppend(0, Utf16(s), Utf16(t));
    SumFromShift(Keyword(s), Utf16(t));
  }

  /** The key does not depend on the order of the parts: swapping two halves
      of the text yields the same request. */
  lemma UserIdIgnoresOrder(s: string, t: string)
    ensures UserId(s + t) == UserId(t + s)
  {
    KeywordAppend(s, t);
    KeywordAppend(t, s);
  }

  /** "ab": 97 + 98 = 195, so the request asks for user 6. */
  lemma UserIdOfAb()
    ensures Keyword("ab") == 195 && UserId("ab") == 6
  {
    KeywordAppend("a", "b");
    assert "a" + "b" == "ab";
  }

  // ---------------------------------------------------------------------
  // The fetched records as list items.
  // ---------------------------------------------------------------------

  /** `list.map(data => ({ name: data.title, value: data.title }))`. */
  function ToListItems(records: seq<Todo>): (r: seq<ListItem>)
    ensures |r| == |records|
    ensures forall i :: 0 <= i < |r| ==> r[i].name == records[i].title && r[i].value == records[i].title
  {
    if records == [] then [] else [ListItem(records[0].title, records[0].title)] + ToListItems(records[1..])
  }

  /** The candidate list after a fetch ends: the mapped records on a truthy
      payload, `[]` on a falsy one, and the list as it was when the fetch threw
      (the exception is only logged). */
  function NextList(list: seq<ListItem>, outcome: FetchOutcome): (r: seq<ListItem>)
    ensures outcome.Payload? ==> |r| == |outcome.records|
    ensures outcome.Payload? ==>
              forall i :: 0 <= i < |r| ==> r[i] == ListItem(outcome.records[i].title, outcome.records[i].title)
    ensures outcome.FalsyPayload? ==> r == []
    ensures outcome.Failure? ==> r == list
  {
    match outcome
    case Payload(records) => ToListItems(records)
    case FalsyPayload => []
    case Failure => list
  }

  /** Completions are not matched to their requests: whichever completes last
      and does not throw decides the list. */
  lemma LastCompletionWins(list: seq<ListItem>, earlier: FetchOutcome, later: FetchOutcome)
    requires !later.Failure?
    ensures NextList(NextList(list, earlier), later) == NextList(list, later)
  {
  }

  // ---------------------------------------------------------------------
  // The five state cells and their transitions, as values.
  // ---------------------------------------------------------------------

  /** App's `useState` cells, together with the host's timer table. */
  datatype HostState = HostState(
    inputValue: string,
    debouncedValue: string,
    interval: Option<nat>,
    debouncedList: seq<ListItem>,
    selectedItem: string,
    timers: Table<Update>)

  /** App's debounce chain: every pending timer is the one `interval` names,
      and it will set the debounced value to the current text. */
  predicate Invariant(s: HostState) {
    && WellFormed(s.timers)
    && forall h :: h in s.timers.pending ==>
         s.interval == Some(h) && s.timers.pending[h].action == SetDebounced(s.inputValue)
  }

  /** The state right after a keystroke: exactly one timer pending, due a full
      `Wait` from now, carrying the text just typed. */
  predicate JustTyped(s: HostState) {
    && Invariant(s)
    && s.interval.Some?
    && s.timers.pending.Keys == {s.interval.value}
    && s.timers.pending[s.interval.value] == Timer(s.timers.now + Wait, SetDebounced(s.inputValue))
  }

  /** App on mount: empty text, nothing debounced, no handle, no candidates,
      nothing selected. */
  function Mounted(timers: Table<Update>): (r: HostState)
    requires WellFormed(timers) && timers.pending == map[]
    ensures Invariant(r) && r.interval == None && r.debouncedList == [] && r.selectedItem == ""
    ensures r.inputValue == "" && r.debouncedValue == "" && r.timers == timers
  {
    HostState("", "", None, [], "", timers)
  }

  /** `handleChangeInput(value)`: the text is updated at once; the pending
      update is cancelled through the stored handle and a new one, carrying
      `value`, is armed and its handle stored. */
  function AfterChangeInput(s: HostState, value: string): (r: HostState)
    requires WellFormed(s.timers)
    ensures WellFormed(r.timers) && r.timers.now == s.timers.now
    ensures r.inputValue == value
    ensures r.debouncedValue == s.debouncedValue && r.debouncedList == s.debouncedList
    ensures r.selectedItem == s.selectedItem
    ensures r.interval.Some? && r.interval.value !in s.timers.pending
    ensures r.interval.value in r.timers.pending
    ensures r.timers.pending[r.interval.value] == Timer(s.timers.now + Wait, SetDebounced(value))
    ensures Invariant(s) ==> JustTyped(r)
  {
    var (timers, h) := Debounced(s.timers, SetDebounced(value), Wait, s.interval);
    s.(inputValue := value, interval := Some(h), timers := timers)
  }

  /** The effect on `[debouncedValue]`: it runs when the value changed, and
      fetches only for a non-empty value. */
  function Effect(previous: string, current: string): (r: Option<Request>)
    ensures r.Some? <==> current != "" && current != previous
    ensures r.Some? ==> r.value.query == current && r.value.userId == UserId(current)
  {
    if current != previous && current != "" then Some(Request(current, UserId(current))) else None
  }

  /** `setDebouncedValue(value)` and the effect it triggers. */
  function AfterSetDebounced(s: HostState, value: string): (r: (HostState, Option<Request>))
    ensures r.0.debouncedValue == value
    ensures r.0.inputValue == s.inputValue && r.0.interval == s.interval && r.0.timers == s.timers
    ensures r.0.debouncedList == s.debouncedList && r.0.selectedItem == s.selectedItem
    ensures r.1 == Effect(s.debouncedValue, value)
  {
    (s.(debouncedValue := value), Effect(s.debouncedValue, value))
  }

  /** The fired updates run one after the other; the requests they issue, in
      order. */
  function ApplyAll(s: HostState, us: seq<Update>): (r: (HostState, seq<Request>))
    ensures r.0.inputValue == s.inputValue && r.0.interval == s.interval && r.0.timers == s.timers
    ensures r.0.debouncedList == s.debouncedList && r.0.selectedItem == s.selectedItem
    ensures us == [] ==> r.0.debouncedValue == s.debouncedValue && r.1 == []
    ensures us != [] ==> r.0.debouncedValue == us[|us| - 1].value
    ensures forall i :: 0 <= i < |r.1| ==> r.1[i].query != "" && r.1[i].userId == UserId(r.1[i].query)
    decreases |us|
  {
    if us == [] then (s, [])
    else
      var before := ApplyAll(s, us[..|us| - 1]);
      var after := AfterSetDebounced(before.0, us[|us| - 1].value);
      (after.0, before.1 + if after.1.Some? then [after.1.value] else [])
  }

  /** Whether App's pending timer becomes due at the next tick. */
  predicate Fires(s: HostState) {
    s.interval.Some? && s.interval.value in s.timers.pending
    && s.timers.pending[s.interval.value].deadline <= s.timers.now + 1
  }

  /** The request list an optional request contributes. */
  function Requests(q: Option<Request>): seq<Request> {
    if q.Some? then [q.value] else []
  }

  /** One tick: the clock moves on; if App's timer is due it fires, setting
      the debounced value to the current text, and the effect may fetch. */
  function AfterTick(s: HostState): (r: (HostState, seq<Request>))
    requires Invariant(s)
    ensures Invariant(r.0) && r.0.timers.now == s.timers.now + 1 && r.0.timers.next == s.timers.next
    ensures Fires(s) ==> r.0.timers.pending == map[]
    ensures !Fires(s) ==> r.0.timers.pending == s.timers.pending
    ensures r.0.inputValue == s.inputValue && r.0.interval == s.interval
    ensures r.0.debouncedList == s.debouncedList && r.0.selectedItem == s.selectedItem
    ensures Fires(s) ==> r.0.debouncedValue == s.inputValue && r.1 == Requests(Effect(s.debouncedValue, s.inputValue))
    ensures !Fires(s) ==> r.0.debouncedValue == s.debouncedValue && r.1 == []
  {
    var (timers, fired) := Ticked(s.timers);
    TickedByInvariant(s);
    ApplyAll(s.(timers := timers), fired)
  }

  /** Under the invariant a tick fires App's timer alone, leaving nothing
      pending, or fires nothing and leaves the timer as it was. */
  lemma TickedByInvariant(s: HostState)
    requires Invariant(s)
    ensures Fires(s) ==> Ticked(s.timers).1 == [SetDebounced(s.inputValue)]
    ensures Fires(s) ==> Ticked(s.timers).0.pending == map[]
    ensures !Fires(s) ==> Ticked(s.timers).1 == []
    ensures !Fires(s) ==> Ticked(s.timers).0.pending == s.timers.pending
  {
    var after := Ticked(s.timers).0;
    if Fires(s) {
      DueIsSingle(s.timers, s.interval.value);
      assert after.pending.Keys == {};
    } else {
      assert Due(s.timers) == [];
      assert after.pending.Keys == s.timers.pending.Keys;
    }
  }

  /** The host's tick is the timer table's tick. */
  lemma AfterTickIsTicked(s: HostState)
    requires Invariant(s)
    ensures AfterTick(s).0.timers == Ticked(s.timers).0
  {
  }

  /** `onClickItem(data)`: records the selection; nothing else changes. */
  function AfterClickItem(s: HostState, data: ListItem): (r: HostState)
    ensures r.selectedItem == data.value
    ensures r.inputValue == s.inputValue && r.debouncedValue == s.debouncedValue
    ensures r.debouncedList == s.debouncedList && r.interval == s.interval && r.timers == s.timers
  {
    s.(selectedItem := data.value)
  }

  /** A fetch completes: only the list changes, as NextList says. */
  function AfterFetch(s: HostState, outcome: FetchOutcome): (r: HostState)
    ensures r.debouncedList == NextList(s.debouncedList, outcome)
    ensures r.inputValue == s.inputValue && r.debouncedValue == s.debouncedValue
    ensures r.selectedItem == s.selectedItem && r.interval == s.interval && r.timers == s.timers
  {
    s.(debouncedList := NextList(s.debouncedList, outcome))
  }

  /** The App component: its state cells and handlers over the host's timer
      table. */
  class App {
    var inputValue: string
    var debouncedValue: string
    var interval: Option<nat>
    var debouncedList: seq<ListItem>
    var selectedItem: string
    const timers: TimerTable<Update>

    function State(): HostState
      reads this, timers
    {
      HostState(inputValue, debouncedValue, interval, debouncedList, selectedItem, timers.State())
    }

    predicate Valid()
      reads this, timers
    {
      Invariant(State())
    }

    /** Mounting App on a timer table with nothing pending. */
    constructor (timers: TimerTable<Update>)
      requires timers.Valid() && timers.pending == map[]
      ensures this.timers == timers && Valid()
      ensures State() == Mounted(timers.State())
    {
      this.timers := timers;
      inputValue, debouncedValue, interval := "", "", None;
      debouncedList, selectedItem := [], "";
    }

    method HandleChangeInput(value: string)
      requires Valid()
      modifies this, timers
      ensures Valid() && State() == AfterChangeInput(old(State()), value)
    {
      inputValue := value;
      var handle := Debounce(timers, SetDebounced(value), Wait, interval);
      interval := Some(handle);
    }

    /** The fired timer's `setDebouncedValue(value)` and the effect it
        triggers: the request issued, if any. */
    method SetDebouncedValue(value: string) returns (request: Option<Request>)
      requires Valid()
      modifies this
      ensures Valid() && (State(), request) == AfterSetDebounced(old(State()), value)
    {
      var previous := debouncedValue;
      debouncedValue := value;
      if debouncedValue != previous && debouncedValue != "" {
        request := Some(Request(debouncedValue, UserId(debouncedValue)));
      } else {
        request := None;
      }
    }

    /** The clock moves on by one; every timer that becomes due runs. */
    method Tick() returns (requests: seq<Request>)
      requires Valid()
      modifies this, timers
      ensures Valid() && (State(), requests) == AfterTick(old(State()))
    {
      ghost var s := State();
      var fired := timers.Tick();
      ghost var s0 := State();
      assert s0 == s.(timers := Ticked(s.timers).0);
      requests := [];
      var i := 0;
      while i < |fired|
        invariant 0 <= i <= |fired| && Valid()
        invariant (State(), requests) == ApplyAll(s0, fired[..i])
      {
        var request := SetDebouncedValue(fired[i].value);
        assert fired[..i + 1][..i] == fired[..i];
        requests := requests + Requests(request);
        i := i + 1;
      }
      assert fired[..|fired|] == fired;
    }

    method CompleteFetch(outcome: FetchOutcome)
      requires Valid()
      modifies this
      ensures Valid() && State() == AfterFetch(old(State()), outcome)
    {
      match outcome
      case Payload(records) =>
        debouncedList := ToListItems(records);
      case FalsyPayload =>
        debouncedList := [];
      case Failure =>
    }

    method OnClickItem(data: ListItem)
      requires Valid()
      modifies this
      ensures Valid() && State() == AfterClickItem(old(State()), data)
    {
      selectedItem := data.value;
    }
  }
}
