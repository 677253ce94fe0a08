/** src/components/AsyncSelect/index.tsx: the combobox's own state.

    Two flags, `isOpenList` and `isFocused`, change only through the three
    handlers `handleClick` (the angle icon), `handleFocus` (the input and the
    displayed-value cover) and `handleBlur` (the overlay and a list row). What
    is rendered depends on them: the read-only cover showing `displayedValue`,
    and the overlay and the list, both wrapped in `Maybe isOpen={isOpenList}`. */
module Select {
  import opened JsValues

  /** One candidate of the list, as the host supplies it. */
  datatype ListItem = ListItem(name: string, value: string)

  datatype SelectState = SelectState(isOpenList: bool, isFocused: bool)

  /** Both `useState` cells start out false: closed and unfocused. */
  const Initial := SelectState(false, false)

  /** `handleClick`: flips `isOpenList`; focus is left alone. */
  function Toggle(s: SelectState): (r: SelectState)
    ensures r.isOpenList == !s.isOpenList && r.isFocused == s.isFocused
  {
    if s.isOpenList then s.(isOpenList := false) else s.(isOpenList := true)
  }

  /** `handleFocus`: focused and open, whatever the state before. */
  function Focus(s: SelectState): (r: SelectState)
    ensures r.isOpenList && r.isFocused
  {
    s.(isFocused := true, isOpenList := true)
  }

  /** `handleBlur`: unfocused and closed, whatever the state before. */
  function Blur(s: SelectState): (r: SelectState)
    ensures !r.isOpenList && !r.isFocused
  {
    s.(isFocused := false, isOpenList := false)
  }

  /** The read-only cover (line 145) is rendered iff `displayedValue` is truthy
      and the input is not focused. */
  predicate ShowsCover(s: SelectState, displayedValue: Option<string>)
    ensures ShowsCover(s, displayedValue) <==>
              displayedValue.Some? && displayedValue.value != "" && !s.isFocused
  {
    TruthyText(displayedValue) && !s.isFocused
  }

  /** The overlay (line 139) and the list (line 154) are both rendered iff
      `isOpenList`. */
  predicate ShowsList(s: SelectState)
    ensures ShowsList(s) <==> s.isOpenList
  {
    s.isOpenList
  }

  /** Clicking the icon twice gives back the state before. */
  lemma ToggleTwice(s: SelectState)
    ensures Toggle(Toggle(s)) == s
  {
  }

  /** Focus and blur are idempotent, and each leaves the two flags equal. */
  lemma FocusBlurSettle(s: SelectState)
    ensures Focus(Focus(s)) == Focus(s) && Blur(Blur(s)) == Blur(s)
    ensures Focus(s).isOpenList == Focus(s).isFocused
    ensures Blur(s).isOpenList == Blur(s).isFocused
  {
  }

  /** The user's interactions with the rendered tree, by target. */
  datatype UiEvent =
    | IconClick     // AngleIcon onClick={handleClick}
    | InputFocus    // AsyncInput onFocus={handleFocus}
    | CoverClick    // DisplayWrapper onClick={handleFocus}
    | OverlayClick  // Overlay onClick={handleBlur}
    | RowClick      // a list row: onClickItem, then handleBlur (List.tsx)

  /** Whether the event's target is in the rendered tree at all. */
  predicate Offered(s: SelectState, e: UiEvent, displayedValue: Option<string>, rowCount: nat) {
    match e
    case IconClick => true
    case InputFocus => true
    case CoverClick => ShowsCover(s, displayedValue)
    case OverlayClick => ShowsList(s)
    case RowClick => ShowsList(s) && rowCount > 0
  }

  /** The combobox state after an event: the handler its target is wired to
      (icon to `handleClick`, input and cover to `handleFocus`, overlay and
      rows to `handleBlur`). */
  function Step(s: SelectState, e: UiEvent): (r: SelectState)
    ensures e == IconClick ==> r.isOpenList == !s.isOpenList && r.isFocused == s.isFocused
    ensures e == InputFocus || e == CoverClick ==> r.isOpenList && r.isFocused
    ensures e == OverlayClick || e == RowClick ==> !r.isOpenList && !r.isFocused
  {
    match e
    case IconClick => Toggle(s)
    case InputFocus => Focus(s)
    case CoverClick => Focus(s)
    case OverlayClick => Blur(s)
    case RowClick => Blur(s)
  }

  /** The state after a sequence of events, first event first. */
  function Run(s: SelectState, es: seq<UiEvent>): SelectState
    decreases |es|
  {
    if es == [] then s else Run(Step(s, es[0]), es[1..])
  }

  /** Clicking the cover runs `handleFocus`, which hides the cover and opens
      the list. */
  lemma CoverClickHidesCover(s: SelectState, displayedValue: Option<string>, rowCount: nat)
    requires Offered(s, CoverClick, displayedValue, rowCount)
    ensures !ShowsCover(Step(s, CoverClick), displayedValue) && ShowsList(Step(s, CoverClick))
  {
  }

  /** The overlay exists only while the list is open, so closing through it
      always starts from the open state. */
  lemma OverlayClosesOpenList(s: SelectState, displayedValue: Option<string>, rowCount: nat)
    requires Offered(s, OverlayClick, displayedValue, rowCount)
    ensures s.isOpenList && !Step(s, OverlayClick).isOpenList && !Step(s, OverlayClick).isFocused
  {
  }

  /** Only the icon can make the flags differ: from a state where they agree,
      any sequence of events without an icon click ends with them agreeing. */
  lemma {:induction false} FlagsAgreeWithoutIcon(s: SelectState, es: seq<UiEvent>)
    requires s.isOpenList == s.isFocused
    requires forall i :: 0 <= i < |es| ==> es[i] != IconClick
    ensures Run(s, es).isOpenList == Run(s, es).isFocused
    decreases |es|
  {
    if es != [] {
      FlagsAgreeWithoutIcon(Step(s, es[0]), es[1..]);
    }
  }

  /** Every combination of the two flags is reachable from the initial state;
      in particular open while unfocused (one icon click) and closed while
      focused (focus, then an icon click). */
  lemma EveryStateReachable(target: SelectState)
    ensures exists es :: Run(Initial, es) == target
  {
    if target.isOpenList && target.isFocused {
      assert Run(Initial, [InputFocus]) == Run(Focus(Initial), []);
    } else if target.isOpenList {
      assert Run(Initial, [IconClick]) == Run(Toggle(Initial), []);
    } else if target.isFocused {
      var es := [InputFocus, IconClick];
      assert es[1..] == [IconClick];
      assert Run(Initial, es) == Run(Toggle(Focus(Initial)), []);
    } else {
      assert Run(Initial, []) == target;
    }
  }

  /** The combobox component's state cells and handlers. */
  class Async {
    var isOpenList: bool
    var isFocused: bool

    function State(): SelectState
      reads this
    {
      SelectState(isOpenList, isFocused)
    }

    constructor ()
      ensures State() == Initial
    {
      isOpenList, isFocused := false, false;
    }

    method HandleClick()
      modifies this
      ensures State() == Toggle(old(State()))
    {
      if isOpenList {
        isOpenList := false;
      } else {
        isOpenList := true;
      }
    }

    method HandleFocus()
      modifies this
      ensures State() == Focus(old(State()))
    {
      isFocused := true;
      isOpenList := true;
    }

    method HandleBlur()
      modifies this
      ensures State() == Blur(old(State()))
    {
      isFocused := false;
      isOpenList := false;
    }
  }
}
