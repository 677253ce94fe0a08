/** The end-to-end story across the four source files: keystrokes, the quiet
    period, the fetch for the last text, the list it yields, a row click, and
    the selected value with the combobox closed. */
module Story {
  import opened JsValues
  import opened Timers
  import opened Select
  import opened Host
  import opened SelectList

  /** A burst of keystrokes with no tick in between. */
  function TypeAll(s: HostState, texts: seq<string>): (r: HostState)
    requires Invariant(s)
    ensures Invariant(r) && r.timers.now == s.timers.now
    ensures r.debouncedValue == s.debouncedValue && r.debouncedList == s.debouncedList
    ensures r.selectedItem == s.selectedItem
    ensures texts == [] ==> r == s
    ensures texts != [] ==> JustTyped(r) && r.inputValue == texts[|texts| - 1]
    decreases |texts|
  {
    if texts == [] then s
    else
      assert texts[1..] != [] ==> texts[1..][|texts[1..]| - 1] == texts[|texts| - 1];
      TypeAll(AfterChangeInput(s, texts[0]), texts[1..])
  }

  /** `k` ticks in a row, and the requests issued along the way. */
  function TickN(s: HostState, k: nat): (r: (HostState, seq<Request>))
    requires Invariant(s)
    ensures Invariant(r.0) && r.0.timers.now == s.timers.now + k
    ensures r.0.inputValue == s.inputValue && r.0.interval == s.interval
    ensures r.0.debouncedList == s.debouncedList && r.0.selectedItem == s.selectedItem
    decreases k
  {
    if k == 0 then (s, [])
    else
      var before := TickN(s, k - 1);
      var after := AfterTick(before.0);
      (after.0, before.1 + after.1)
  }

  /** The state `k` ticks later when nothing fires: only the clock moves. */
  function Later(s: HostState, k: nat): (r: HostState)
    requires Invariant(s)
    requires forall h :: h in s.timers.pending ==> s.timers.now + k <= s.timers.pending[h].deadline
    ensures Invariant(r) && r.timers.now == s.timers.now + k
    ensures r.timers.pending == s.timers.pending && r.timers.next == s.timers.next
    ensures r.inputValue == s.inputValue && r.debouncedValue == s.debouncedValue && r.interval == s.interval
    ensures r.debouncedList == s.debouncedList && r.selectedItem == s.selectedItem
  {
    s.(timers := s.timers.(now := s.timers.now + k))
  }

  /** Ticks before any timer is due only move the clock. */
  lemma {:induction false} IdleTicks(s: HostState, k: nat)
    requires Invariant(s)
    requires forall h :: h in s.timers.pending ==> s.timers.now + k < s.timers.pending[h].deadline
    ensures TickN(s, k) == (Later(s, k), [])
    decreases k
  {
    if k > 0 {
      var mid := Later(s, k - 1);
      assert TickN(s, k) == AfterTick(mid) by {
        IdleTicks(s, k - 1);
        LastTick(s, k, mid);
      }
      assert !Fires(mid);
      IdleTick(mid.timers);
    }
  }

  /** After a keystroke nothing happens for `Wait - 1` ticks. */
  lemma QuietBeforeDeadline(s: HostState, k: nat)
    requires JustTyped(s) && k < Wait
    ensures TickN(s, k).0.debouncedValue == s.debouncedValue && TickN(s, k).1 == []
  {
    IdleTicks(s, k);
  }

  /** The tick that ends the quiet period sets the debounced value to the
      text, leaves no timer pending, and fetches iff that text is non-empty
      and differs from the previous debounced value. */
  lemma QuietPeriod(s: HostState)
    requires JustTyped(s)
    ensures TickN(s, Wait).0.debouncedValue == s.inputValue
    ensures TickN(s, Wait).0.timers.pending == map[]
    ensures TickN(s, Wait).1 == Requests(Effect(s.debouncedValue, s.inputValue))
  {
    FiresAtTick(s, Wait);
  }

  /** QuietPeriod for a timer due `d` ticks from now. */
  lemma FiresAtTick(s: HostState, d: nat)
    requires Invariant(s) && 1 <= d && s.interval.Some?
    requires s.timers.pending.Keys == {s.interval.value}
    requires s.timers.pending[s.interval.value].deadline == s.timers.now + d
    ensures TickN(s, d).0.debouncedValue == s.inputValue
    ensures TickN(s, d).0.timers.pending == map[]
    ensures TickN(s, d).1 == Requests(Effect(s.debouncedValue, s.inputValue))
  {
    SoleTimerWaits(s, d);
    var mid := Later(s, d - 1);
    assert TickN(s, d - 1) == (mid, []) by {
      IdleTicks(s, d - 1);
    }
    assert Invariant(mid) && Fires(mid) by {
      SoleTimerDue(s, d, mid);
    }
    assert TickN(s, d) == AfterTick(mid) by {
      LastTick(s, d, mid);
    }
  }

  /** The only pending timer, due `d` ticks from now, is not due earlier. */
  lemma SoleTimerWaits(s: HostState, d: nat)
    requires 1 <= d && s.interval.Some?
    requires s.timers.pending.Keys == {s.interval.value}
    requires s.timers.pending[s.interval.value].deadline == s.timers.now + d
    ensures forall h :: h in s.timers.pending ==> s.timers.now + (d - 1) < s.timers.pending[h].deadline
  {
  }

  /** One tick before its deadline the only pending timer is due. */
  lemma SoleTimerDue(s: HostState, d: nat, mid: HostState)
    requires Invariant(s) && 1 <= d && s.interval.Some?
    requires s.timers.pending.Keys == {s.interval.value}
    requires s.timers.pending[s.interval.value].deadline == s.timers.now + d
    requires mid == Later(s, d - 1)
    ensures Invariant(mid) && Fires(mid)
  {
  }

  /** The last of `d` ticks, after `d - 1` ticks that reached `mid` and
      issued nothing. */
  lemma LastTick(s: HostState, d: nat, mid: HostState)
    requires Invariant(s) && 1 <= d && TickN(s, d - 1) == (mid, [])
    ensures Invariant(mid) && TickN(s, d) == AfterTick(mid)
  {
    assert [] + AfterTick(mid).1 == AfterTick(mid).1;
  }

  /** After keystrokes v1..vn with no tick in between, only the timer for vn
      is pending; when it fires the debounced value is vn, and at most one
      request is issued, for vn. */
  lemma BurstFiresLastText(s: HostState, texts: seq<string>)
    requires Invariant(s) && texts != []
    ensures var typed := TypeAll(s, texts);
      && typed.timers.pending.Keys == {typed.interval.value}
      && typed.timers.pending[typed.interval.value].action == SetDebounced(texts[|texts| - 1])
    ensures var waited := TickN(TypeAll(s, texts), Wait);
      var last := texts[|texts| - 1];
      && waited.0.debouncedValue == last && waited.0.inputValue == last
      && waited.1 == Requests(Effect(s.debouncedValue, last))
      && |waited.1| <= 1
      && (waited.1 != [] <==> last != "" && last != s.debouncedValue)
      && (waited.1 != [] ==> waited.1[0] == Request(last, UserId(last)))
  {
    QuietPeriod(TypeAll(s, texts));
  }

  /** One keystroke followed by `gap` ticks. Fewer than `Wait` ticks
      debounce and fetch nothing; exactly `Wait` ticks debounce the text and
      fetch as the effect says. */
  function Keystroke(s: HostState, text: string, gap: nat): (r: (HostState, seq<Request>))
    requires Invariant(s)
    ensures Invariant(r.0) && r.0.inputValue == text
    ensures r.0.debouncedList == s.debouncedList && r.0.selectedItem == s.selectedItem
    ensures gap < Wait ==> r.0.debouncedValue == s.debouncedValue && r.1 == []
    ensures gap == Wait ==> r.0.debouncedValue == text && r.1 == Requests(Effect(s.debouncedValue, text))
  {
    var typed := AfterChangeInput(s, text);
    if gap < Wait then
      QuietBeforeDeadline(typed, gap);
      TickN(typed, gap)
    else
      QuietPeriod(typed);
      TickN(typed, gap)
  }

  /** Keystrokes `texts[i]`, each followed by `gaps[i]` ticks; the final
      state and the requests issued along the way. */
  function TypeWithGaps(s: HostState, texts: seq<string>, gaps: seq<nat>): (r: (HostState, seq<Request>))
    requires Invariant(s) && |texts| == |gaps|
    ensures Invariant(r.0)
    ensures texts != [] ==> r.0.inputValue == texts[|texts| - 1]
    ensures r.0.debouncedList == s.debouncedList && r.0.selectedItem == s.selectedItem
    decreases |texts|
  {
    if texts == [] then (s, [])
    else
      var first := Keystroke(s, texts[0], gaps[0]);
      var rest := TypeWithGaps(first.0, texts[1..], gaps[1..]);
      assert texts[1..] != [] ==> texts[1..][|texts[1..]| - 1] == texts[|texts| - 1];
      (rest.0, first.1 + rest.1)
  }

  /** Keystrokes less than `Wait` apart, then a full quiet period: each
      keystroke cancels the timer the previous one armed, so only the last
      text is debounced, and at most one request is issued, for it. */
  lemma {:induction false} SpacedBurstFiresLastText(s: HostState, texts: seq<string>, gaps: seq<nat>)
    requires Invariant(s) && |texts| == |gaps| && texts != []
    requires forall i :: 0 <= i < |gaps| - 1 ==> gaps[i] < Wait
    requires gaps[|gaps| - 1] == Wait
    ensures TypeWithGaps(s, texts, gaps).0.debouncedValue == texts[|texts| - 1]
    ensures TypeWithGaps(s, texts, gaps).1 == Requests(Effect(s.debouncedValue, texts[|texts| - 1]))
    decreases |texts|
  {
    if |texts| == 1 {
      assert texts == [texts[0]] && gaps == [gaps[0]];
      LastKeystroke(s, texts[0], gaps[0]);
    } else {
      var next := Keystroke(s, texts[0], gaps[0]).0;
      var ts, gs := texts[1..], gaps[1..];
      assert ts[|ts| - 1] == texts[|texts| - 1];
      assert gs[|gs| - 1] == Wait;
      forall i | 0 <= i < |gs| - 1
        ensures gs[i] < Wait
      {
        assert gs[i] == gaps[i + 1];
      }
      SpacedBurstFiresLastText(next, ts, gs);
      EarlyKeystroke(s, texts, gaps);
    }
  }

  /** A burst of one keystroke is that keystroke and its ticks. */
  lemma LastKeystroke(s: HostState, text: string, gap: nat)
    requires Invariant(s)
    ensures TypeWithGaps(s, [text], [gap]) == Keystroke(s, text, gap)
  {
    var first := Keystroke(s, text, gap);
    assert TypeWithGaps(first.0, [], []) == (first.0, []);
    assert [text][1..] == [] && [gap][1..] == [];
    assert first.1 + [] == first.1;
  }

  /** A keystroke followed by fewer than `Wait` ticks debounces and fetches
      nothing: the rest of the burst decides alone. */
  lemma EarlyKeystroke(s: HostState, texts: seq<string>, gaps: seq<nat>)
    requires Invariant(s) && |texts| == |gaps| && |texts| > 1 && gaps[0] < Wait
    ensures var next := Keystroke(s, texts[0], gaps[0]).0;
      && next.debouncedValue == s.debouncedValue
      && TypeWithGaps(s, texts, gaps) == TypeWithGaps(next, texts[1..], gaps[1..])
  {
    var first := Keystroke(s, texts[0], gaps[0]);
    var rest := TypeWithGaps(first.0, texts[1..], gaps[1..]);
    assert TypeWithGaps(s, texts, gaps) == (rest.0, [] + rest.1);
    assert [] + rest.1 == rest.1;
  }

  /** An empty debounced value issues no fetch and leaves the list as it was;
      the list is not cleared. */
  lemma EmptyTextNeverFetches(s: HostState)
    requires JustTyped(s) && s.inputValue == ""
    ensures TickN(s, Wait).1 == []
    ensures TickN(s, Wait).0.debouncedList == s.debouncedList
  {
    QuietPeriod(s);
  }

  /** Type, wait, fetch, click: the request asks for the last text's user, the
      list shows the fetched titles in order, and clicking row `i` selects
      record `i`'s title and closes the combobox, keeping the text; the cover
      then shows that title unless it is empty. */
  lemma TypeFetchSelect(s: HostState, sel: SelectState, texts: seq<string>, records: seq<Todo>, i: nat)
    requires Invariant(s) && texts != [] && ShowsList(sel) && i < |records|
    requires texts[|texts| - 1] != "" && texts[|texts| - 1] != s.debouncedValue
    ensures var last := texts[|texts| - 1];
      var waited := TickN(TypeAll(s, texts), Wait);
      var fetched := AfterFetch(waited.0, Payload(records));
      var view := Render(fetched.debouncedList, Some(NoDataMessage));
      && waited.1 == [Request(last, UserId(last))]
      && view.Rows? && |view.rows| == |records|
      && view.rows[i].caption == records[i].title
      && AfterClickItem(fetched, view.rows[i].item).selectedItem == records[i].title
      && AfterClickItem(fetched, view.rows[i].item).inputValue == last
      && !Blur(sel).isOpenList && !Blur(sel).isFocused
      && (ShowsCover(Blur(sel), Some(records[i].title)) <==> records[i].title != "")
  {
    BurstFiresLastText(s, texts);
    var waited := TickN(TypeAll(s, texts), Wait);
    FetchedRowsSelect(waited.0, records, i);
    var fetched := AfterFetch(waited.0, Payload(records));
    ClickRowSelects(fetched, sel, Some(NoDataMessage), i);
  }

  /** After a successful fetch, row `i` shows and commits record `i`'s title. */
  lemma FetchedRowsSelect(s: HostState, records: seq<Todo>, i: nat)
    requires i < |records|
    ensures var fetched := AfterFetch(s, Payload(records));
      var view := Render(fetched.debouncedList, Some(NoDataMessage));
      && view.Rows? && |view.rows| == |records|
      && view.rows[i].caption == records[i].title
      && AfterClickItem(fetched, view.rows[i].item).selectedItem == records[i].title
      && AfterClickItem(fetched, view.rows[i].item).inputValue == s.inputValue
  {
  }

  /** `k` calls of App's Tick, collecting the requests they issue. */
  method TickTimes(app: App, k: nat) returns (requests: seq<Request>)
    requires app.Valid()
    modifies app, app.timers
    ensures app.Valid() && (app.State(), requests) == TickN(old(app.State()), k)
  {
    ghost var s := app.State();
    requests := [];
    var n := 0;
    while n < k
      invariant 0 <= n <= k && app.Valid()
      invariant (app.State(), requests) == TickN(s, n)
    {
      var fired := app.Tick();
      requests := requests + fired;
      n := n + 1;
    }
  }

  /** A keystroke followed by a full quiet period, through App's handlers. */
  method TypeAndWait(app: App, text: string) returns (requests: seq<Request>)
    requires app.Valid()
    modifies app, app.timers
    ensures app.Valid() && app.inputValue == text && app.debouncedValue == text
    ensures app.timers.pending == map[]
    ensures requests == Requests(Effect(old(app.debouncedValue), text))
  {
    app.HandleChangeInput(text);
    QuietPeriod(app.State());
    requests := TickTimes(app, Wait);
  }

  /** A fetch completes with `records`, the list renders, and row `i` is
      clicked: App records the title and the combobox closes. */
  method FetchAndSelect(app: App, select: Async, records: seq<Todo>, i: nat) returns (calls: seq<Callback>)
    requires app.Valid() && i < |records|
    modifies app, select
    ensures calls == [OnClickItem(ListItem(records[i].title, records[i].title)), HandleBlur]
    ensures app.Valid() && app.selectedItem == records[i].title && app.inputValue == old(app.inputValue)
    ensures !select.isOpenList && !select.isFocused
  {
    app.CompleteFetch(Payload(records));
    var view := Render(app.debouncedList, Some(NoDataMessage));
    calls := HandleSelectItem(app, select, view.rows[i].item);
  }

  /** The same story driven through the class methods: App, its timer table
      and the combobox, one event at a time. */
  method TypeWaitFetchSelect(app: App, select: Async, text: string, records: seq<Todo>, i: nat)
    returns (requests: seq<Request>, calls: seq<Callback>)
    requires app.Valid() && i < |records|
    requires text != "" && text != app.debouncedValue
    modifies app, app.timers, select
    ensures requests == [Request(text, UserId(text))]
    ensures calls == [OnClickItem(ListItem(records[i].title, records[i].title)), HandleBlur]
    ensures app.Valid() && app.selectedItem == records[i].title && app.inputValue == text
    ensures !select.isOpenList && !select.isFocused
  {
    requests := TypeAndWait(app, text);
    calls := FetchAndSelect(app, select, records, i);
  }
}
