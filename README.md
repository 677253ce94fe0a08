# react-async-select in Dafny

A model of the asynchronous select box of `react-async-select` and of the page that hosts it. It covers four parts:

- **`AsyncSelect/index.tsx`** is a combobox with two state flags, `isOpenList` and `isFocused`. It has three handlers: `handleClick` on the angle icon, `handleFocus` on the input and on the cover that shows the selection, and `handleBlur` on the overlay and on every row.
- **`AsyncSelect/List.tsx`** renders the candidate list: one row per item, or a single empty-data node. `handleSelectItem` first reports the clicked item to `onClickItem` and then closes the box.
- **`App.tsx`** holds five state cells: `inputValue`, `debouncedValue`, `interval`, `debouncedList` and `selectedItem`. Each keystroke re-arms a 500 ms debounce. When the debounced value changes and is non-empty, the page fetches the to-dos of user `(Σ UTF-16 code units) % 10 + 1`. It maps their titles into list items and records the value of a clicked item.
- **`utils/debounce.ts`** clears the previous timer handle if it is truthy and arms a fresh `setTimeout`.

The modules follow the source files:

| module | file | what it holds |
|---|---|---|
| `JsValues` | `js_values.dfy` | `Option`, and JavaScript truthiness of an optional string and of a timer handle |
| `Timers` | `debounce.dfy` | the host's timer table as a value (`Table`) and as a class (`TimerTable`), plus `debounce` over it |
| `Select` | `async_select.dfy` | the combobox flags, the three handlers as functions and as the methods of class `Async`, render conditions and event runs |
| `Host` | `app.dfy` | the query key, the list shaping, App's state as a value (`HostState`) with its transitions, and class `App` |
| `SelectList` | `list.dfy` | the list render and `handleSelectItem` |
| `Story` | `story.dfy` | keystrokes, the quiet period, the fetch, the render and a row click, composed end to end |

### How the timer table works

The browser's timers are a table on a logical clock, where one tick is one millisecond:

- `setTimeout` returns a fresh positive handle. The model counts handles up from 1 and never reuses one, as browsers do; the HTML standard itself requires only a positive id not currently in use.
- `clearTimeout` removes a handle. It does nothing when the handle is not pending.
- A tick advances the clock by one and runs every timer that has fallen due, in handle order. A timer that has run is no longer pending.

### How App's state is modelled

App's state is the value `HostState`. Each class method is proved to move it exactly as a pure function says: `AfterChangeInput`, `AfterSetDebounced`, `AfterTick`, `AfterFetch` or `AfterClickItem`. The properties are proved about those functions.

`Host.Invariant` is kept by every transition. It says that every pending timer is the one `interval` names, and that this timer will set the debounced value to the current text.

### What the code does not do

The source has no keyboard navigation and no highlighted row. The input has no blur handler, so losing focus changes nothing. Only `handleBlur` (an overlay or row click) closes the list, at once, with no grace timer. Fetch completions carry no guard against stale responses: whichever completes last and does not throw decides the list (`Host.LastCompletionWins`). A failed fetch is only logged, and the list is kept (`Host.NextList`).

## Model

| member | source | states |
|---|---|---|
| Timers.Cancelled | src/utils/debounce.ts:2-4 | `clearTimeout(h)` removes exactly `h` from the pending set. It changes nothing when `h` is not pending, and it keeps the table well formed. |
| Timers.Armed | src/utils/debounce.ts:6-9 | `setTimeout(func, wait)` returns a fresh, non-zero handle whose timer runs `func` at `now + wait`. The pending set gains exactly that handle. |
| Timers.Debounced | src/utils/debounce.ts:1-10 | A truthy incoming handle is cancelled, and a null or 0 handle cancels nothing. Exactly one fresh handle is added, due at `now + wait` and carrying `func`. Every other pending timer is untouched. |
| Timers.DueHandles | src/utils/debounce.ts:6-9 | The handles in a range that are pending and due: exactly those, strictly increasing, and none when none qualifies. |
| Timers.Ticked | src/utils/debounce.ts:6-9 | A tick advances the clock by one. It removes the due timers, keeps the others unchanged, and returns the due actions in handle order. |
| Timers.FiresAtDeadline | src/utils/debounce.ts:6-9 | A pending timer fires at a tick iff that tick reaches its deadline, and it is gone afterwards. Until then it stays pending and unchanged. |
| Timers.GoneForGood | src/utils/debounce.ts:2-9 | A handle that has fired or was cancelled never fires again. Neither a tick nor another `debounce` brings it back, and cancelling it again changes nothing. |
| Timers.DueIsSingle | src/utils/debounce.ts:6-9 | When exactly one timer is pending and it is due, a tick fires exactly that timer. |
| Timers.IdleTick | src/utils/debounce.ts:6-9 | When no timer is due, a tick only advances the clock and fires nothing. |
| Timers.DebounceChain | src/utils/debounce.ts:1-10 | Threading each returned handle into the next call hands out consecutive fresh handles and leaves the clock unchanged. |
| Timers.ChainPending | src/utils/debounce.ts:1-10 | After a threaded chain, the pending set is the starting set minus the first incoming truthy handle, plus the last handle. The last handle carries the last `func` and is due at `now + wait`. |
| Timers.ChainLeavesOnlyLast | src/utils/debounce.ts:1-10 | At most one timer of a threaded chain is pending, the last one. Every handle returned earlier is cancelled. |
| Timers.TimerTable.ClearTimeout | src/utils/debounce.ts:3 | The table becomes `Cancelled` of the old table. |
| Timers.TimerTable.SetTimeout | src/utils/debounce.ts:6-9 | The table and the returned handle are `Armed` of the old table. |
| Timers.TimerTable.Tick | src/utils/debounce.ts:6-9 | A loop over the handles. The table and the fired actions are `Ticked` of the old table. |
| Timers.Debounce | src/utils/debounce.ts:1-10 | `debounce` on the table object. The new table and the handle are `Debounced` of the old table. |
| Select.Toggle | src/components/AsyncSelect/index.tsx:119-125 | `handleClick` negates `isOpenList` and leaves `isFocused` unchanged. |
| Select.Focus | src/components/AsyncSelect/index.tsx:127-130 | `handleFocus` makes the box open and focused from any state. |
| Select.Blur | src/components/AsyncSelect/index.tsx:132-135 | `handleBlur` makes the box closed and unfocused from any state. |
| Select.ShowsCover | src/components/AsyncSelect/index.tsx:145-149 | The cover showing the selection renders iff `displayedValue` is a non-empty string and the input is not focused. This is the render rule itself; what follows from it is proved in `Select.CoverClickHidesCover` and `SelectList.ClickRowSelects`. |
| Select.ShowsList | src/components/AsyncSelect/index.tsx:139-162 | The overlay and the list render together, iff `isOpenList`. This is the render rule itself; what follows from it is proved in `Select.OverlayClosesOpenList` and `SelectList.ClickRowSelects`. |
| Select.Step | src/components/AsyncSelect/index.tsx:140-159 | Each rendered target runs its handler. The icon runs `handleClick`. The input and the cover run `handleFocus`, which ends open and focused. The overlay and the rows run `handleBlur`, which ends closed and unfocused. |
| Select.ToggleTwice | src/components/AsyncSelect/index.tsx:119-125 | Two icon clicks restore the state before them. |
| Select.FocusBlurSettle | src/components/AsyncSelect/index.tsx:127-135 | Focus and blur are idempotent, and each leaves `isOpenList == isFocused`. |
| Select.CoverClickHidesCover | src/components/AsyncSelect/index.tsx:145-149 | The cover is offered only while it shows, and clicking it runs `handleFocus`. That hides the cover and opens the list. |
| Select.OverlayClosesOpenList | src/components/AsyncSelect/index.tsx:139-141 | The overlay is offered only while the list is open, so closing through it starts from the open state. It ends closed and unfocused. |
| Select.FlagsAgreeWithoutIcon | src/components/AsyncSelect/index.tsx:119-135 | From a state where the flags agree, any run of events without an icon click ends with them agreeing. |
| Select.EveryStateReachable | src/components/AsyncSelect/index.tsx:116-135 | All four combinations of the flags are reachable from the initial state, including open-but-unfocused and closed-but-focused. |
| Select.Async.constructor | src/components/AsyncSelect/index.tsx:116-117 | The box starts closed and unfocused. |
| Select.Async.HandleClick | src/components/AsyncSelect/index.tsx:119-125 | The object's flags become `Toggle` of the old flags. |
| Select.Async.HandleFocus | src/components/AsyncSelect/index.tsx:127-130 | The object's flags become `Focus` of the old flags. |
| Select.Async.HandleBlur | src/components/AsyncSelect/index.tsx:132-135 | The object's flags become `Blur` of the old flags. |
| Host.CodeUnits | src/App.tsx:46-48 | A character below 0x10000 is its own single code unit; a character from 0x10000 up is two. Each unit lies in 0..0xFFFF. |
| Host.CodeUnitsDecode | src/App.tsx:46-48 | A character's two units are a high and then a low surrogate, and they decode back to the character. |
| Host.Utf16 | src/App.tsx:46 | `split("")` yields between `\|s\|` and `2\|s\|` code units, each in 0..0xFFFF. |
| Host.SumFrom | src/App.tsx:46-48 | The `reduce` fold stays between `acc` and `acc + 0xFFFF·n`. |
| Host.Keyword | src/App.tsx:46-48 | The keyword is a natural number of at most `0xFFFF·2·\|s\|`. |
| Host.UserId | src/App.tsx:52 | The `userId` in the URL is `keyword % 10 + 1`, which always lies in 1..10. |
| Host.Utf16Append | src/App.tsx:46 | The code units of a concatenation are the code units of its parts, in order. |
| Host.SumFromAppend | src/App.tsx:46-48 | Folding a concatenation equals folding the second part from the first part's result. |
| Host.KeywordAppend | src/App.tsx:46-48 | The keyword of `s + t` is the keyword of `s` plus the keyword of `t`. |
| Host.UserIdIgnoresOrder | src/App.tsx:46-52 | Swapping two halves of the text gives the same `userId`. |
| Host.UserIdOfAb | src/App.tsx:46-52 | The text "ab" gives keyword 195 and `userId` 6. |
| Host.ToListItems | src/App.tsx:58-63 | The records map elementwise to `{name: title, value: title}`, keeping length and order. |
| Host.NextList | src/App.tsx:57-71 | A truthy payload becomes the mapped records and a falsy payload becomes `[]`. On a thrown or rejected fetch the list is kept. |
| Host.LastCompletionWins | src/App.tsx:65-71 | Completions are not matched to requests: the last one that does not throw decides the list. |
| Host.Mounted | src/App.tsx:25-29 | On mount, App has empty text, no debounced value, no handle, an empty list and no selection, and its invariant holds. |
| Host.AfterChangeInput | src/App.tsx:31-42 | The text is `value` at once. The stored handle is replaced by a fresh one whose timer carries `value` and is due in 500. The other cells are unchanged, and from an invariant state exactly that one timer is pending. |
| Host.Effect | src/App.tsx:74-78 | The effect fetches iff the new debounced value is non-empty and differs from the previous one. It fetches for that value's `userId`. |
| Host.AfterSetDebounced | src/App.tsx:74-78 | `setDebouncedValue` changes only the debounced value, and its request is `Effect` of the old and new values. |
| Host.ApplyAll | src/App.tsx:35-37 | After a run of fired updates, the debounced value is the last update's value and no other cell changes. Every request issued has a non-empty query and that query's `userId`. |
| Host.AfterTick | src/App.tsx:33-41 | A tick keeps App's invariant and advances the clock by one. When App's timer is due, it fires and leaves nothing pending, the debounced value becomes the current text, and the effect may fetch. Otherwise nothing but the clock changes, and the timer stays pending. |
| Host.TickedByInvariant | src/App.tsx:33-41 | Under App's invariant, a tick of the timer table either fires exactly App's update carrying the current text and empties the table, or fires nothing and keeps the pending timer. |
| Host.AfterTickIsTicked | src/App.tsx:33-41 | The host's tick moves the timer table exactly as the table's own tick does. |
| Host.AfterClickItem | src/App.tsx:80-82 | `onClickItem(d)` sets the selection to `d.value` and leaves the text, the list and the timers unchanged. |
| Host.AfterFetch | src/App.tsx:57-71 | A completed fetch changes only the list, as `NextList` says. |
| Host.App.constructor | src/App.tsx:25-29 | The object starts in the `Mounted` state. |
| Host.App.HandleChangeInput | src/App.tsx:31-42 | The object's state becomes `AfterChangeInput` of the old state, and the invariant is kept. |
| Host.App.SetDebouncedValue | src/App.tsx:74-78 | The object's state and the request become `AfterSetDebounced` of the old state. |
| Host.App.Tick | src/App.tsx:33-41 | A loop over the fired updates. The object's state and the requests become `AfterTick` of the old state. |
| Host.App.CompleteFetch | src/App.tsx:57-71 | The object's state becomes `AfterFetch` of the old state. |
| Host.App.OnClickItem | src/App.tsx:80-82 | The object's state becomes `AfterClickItem` of the old state. |
| SelectList.EmptyText | src/components/AsyncSelect/List.tsx:61 | The empty-data text is `message` when it is truthy, otherwise "empty". An empty-string message also falls back to "empty". |
| SelectList.Render | src/components/AsyncSelect/List.tsx:54-62 | An empty list renders exactly one empty-data node. A non-empty list renders exactly one row per item, in order, and row `i` shows and commits item `i`. |
| SelectList.RowsCommitTheList | src/components/AsyncSelect/List.tsx:55-56 | The items the rows commit are the list itself, with nothing dropped, duplicated or reordered. |
| SelectList.HandleSelectItem | src/components/AsyncSelect/List.tsx:45-50 | A row click calls `onClickItem(data)` strictly before `handleBlur`. When `onClickItem` is absent, `handleBlur` still runs. |
| SelectList.ClickRowSelects | src/components/AsyncSelect/List.tsx:45-59 | After clicking row `i`, the selection is `debouncedList[i].value`, the box is closed and unfocused, and the text and list are unchanged. The cover then shows iff that value is non-empty. |
| Story.TypeAll | src/App.tsx:31-42 | After a burst of keystrokes, the text is the last one typed and only its timer is pending, due 500 from now. |
| Story.TickN | src/App.tsx:33-41 | Ticking `k` times advances the clock by `k` and keeps App's invariant. The text, the list and the selection are unchanged. |
| Story.IdleTicks | src/App.tsx:33-41 | Ticks before any timer is due only advance the clock. |
| Story.QuietBeforeDeadline | src/App.tsx:33-41 | For 499 ticks after a keystroke, nothing is debounced and nothing is fetched. |
| Story.QuietPeriod | src/App.tsx:31-78 | At the 500th tick after a keystroke, the debounced value becomes the text and no timer is left pending. A fetch happens iff the text is non-empty and new. |
| Story.FiresAtTick | src/App.tsx:33-41 | The same, for a timer due `d` ticks from now. |
| Story.BurstFiresLastText | src/App.tsx:31-78 | After keystrokes v1..vn with no tick in between, followed by a quiet period, only vn's update has run and `debouncedValue == vn`. At most one request is issued, for vn, and only when vn is non-empty and new. |
| Story.Keystroke | src/App.tsx:31-41 | One keystroke and `gap` ticks. Fewer than 500 ticks debounce and fetch nothing. Exactly 500 ticks debounce the text and fetch as `Effect` says. |
| Story.TypeWithGaps | src/App.tsx:31-41 | Keystrokes each followed by their own number of ticks. The text is the last one typed, and App's invariant holds. |
| Story.SpacedBurstFiresLastText | src/App.tsx:31-78 | Keystrokes each less than 500 ticks after the previous one, then 500 quiet ticks. Each keystroke cancels the timer the previous one armed, so `debouncedValue` becomes the last text. The requests are exactly `Effect` of the old debounced value and the last text. |
| Story.LastKeystroke | src/App.tsx:31-41 | A burst of one keystroke is that keystroke and its ticks. |
| Story.EarlyKeystroke | src/App.tsx:31-41 | A keystroke followed by fewer than 500 ticks changes no debounced value and issues no request, so the rest of the burst decides alone. |
| Story.EmptyTextNeverFetches | src/App.tsx:74-78 | An empty debounced value issues no fetch and does not clear the list. |
| Story.TypeFetchSelect | src/App.tsx:31-82 | Type, wait, fetch and click row `i`. Exactly one request for the last text's user is issued, and the list shows the fetched titles in order. Row `i` selects record `i`'s title, the box closes and the text is kept. The cover then shows that title unless it is empty. |
| Story.FetchedRowsSelect | src/components/AsyncSelect/List.tsx:54-59 | After a successful fetch, there is one row per record, and row `i` shows and selects record `i`'s title. |
| Story.TickTimes | src/App.tsx:33-41 | `k` calls of App's `Tick` amount to `TickN` of the old state. |
| Story.TypeAndWait | src/App.tsx:31-78 | A keystroke followed by 500 ticks on the objects: the text is debounced, no timer is left pending, and the request is `Effect` of the old and new values. |
| Story.FetchAndSelect | src/components/AsyncSelect/List.tsx:45-59 | A completed fetch and a click on row `i`, on the objects: `onClickItem` and then `handleBlur` run, record `i`'s title is selected and the box is closed and unfocused. |
| Story.TypeWaitFetchSelect | src/App.tsx:31-82 | The whole story on the objects: one request for the text's user, the row's title selected, the text kept and the box closed. |

## Left out

- Real time is a logical clock of one tick per millisecond. A tick fires the due timers in handle order. Browsers order by deadline, then by arming. With one tick per millisecond the two orders differ only for timers armed at different times that fall due on the same tick.
- React's render cycle is assumed to run between events. Each handler sees the cells as the previous event left them. Batched updates and stale closures within one render are not modelled.
- The HTTP request is out of scope: the axios call, the URL text and the network. A fetch is its `Request(query, userId)` plus a `FetchOutcome` supplied by the caller. A completion is not tied to the request that caused it, as in the source.
- A payload that is truthy but not an array makes `list.map` throw. The model folds that case into `Failure`.
- `console.warn` in the catch block is not modelled. Only its effect, the list kept as it was, is.
- Host.App.HandleChangeInput: the handler is modelled as receiving the text, as `App.tsx` declares it. In the source, the input's `onChange` passes the change event object instead, and that mismatch is not modelled.
- Styling, widths and heights, the icon rotation and the `width`/`height` props are not modelled.
- `src/helper/Maybe.tsx` is folded into `Select.ShowsList`: it renders its children iff `isOpen`.
- `src/components/index.tsx` is a static placeholder and is not part of this model.
- Host.Keyword: JavaScript numbers are doubles. The model uses unbounded integers, which agree with the source until the sum passes 2^53, which takes a string of over 6·10^10 characters.
- Host.CodeUnits: Dafny characters are Unicode scalar values, so lone surrogates in the text cannot be expressed.
- Unmounting is not modelled. App has no cleanup, so a pending timer would still fire after unmount.
- Browser handle numbering is not modelled. Handles are assumed positive and never reused. The HTML standard requires only a positive id not currently in use; browsers hand out increasing ids. `Timers.GoneForGood` rests on this assumption.
