/** src/components/AsyncSelect/List.tsx: the dropdown's contents and what a
    click on a row does. */
module SelectList {
  import opened JsValues
  import opened Select
  import Host

  /** A rendered row: its React key (the index), the text it shows, and the
      item its click handler commits. */
  datatype Row = Row(key: nat, caption: string, item: ListItem)

  /** The list container holds either one empty-data node or the rows. */
  datatype View = EmptyData(text: string) | Rows(rows: seq<Row>)

  /** `message || "empty"`: an absent or empty message falls back to "empty",
      so the empty-data node never shows blank text. */
  function EmptyText(message: Option<string>): (r: string)
    ensures r != ""
    ensures TruthyText(message) ==> r == message.value
    ensures !TruthyText(message) ==> r == "empty"
  {
    if TruthyText(message) then message.value else "empty"
  }

  /** The render: for an empty list one empty-data node; otherwise one row per
      item, in list order, row `i` showing item `i`'s name and committing
      item `i`. */
  function Render(list: seq<ListItem>, message: Option<string>): (v: View)
    ensures v.EmptyData? <==> |list| == 0
    ensures v.EmptyData? ==> v.text == EmptyText(message)
    ensures v.Rows? ==> |v.rows| == |list|
    ensures v.Rows? ==> forall i :: 0 <= i < |v.rows| ==>
              v.rows[i].key == i && v.rows[i].caption == list[i].name && v.rows[i].item == list[i]
  {
    if |list| != 0 then Rows(seq(|list|, i requires 0 <= i < |list| => Row(i, list[i].name, list[i])))
    else EmptyData(EmptyText(message))
  }

  /** The items the rows commit are the list itself: nothing dropped,
      duplicated or reordered. */
  lemma RowsCommitTheList(list: seq<ListItem>, message: Option<string>)
    requires |list| != 0
    ensures var rows := Render(list, message).rows;
      seq(|rows|, i requires 0 <= i < |rows| => rows[i].item) == list
  {
  }

  /** The callbacks a row click runs, in the order it runs them. */
  datatype Callback = OnClickItem(data: ListItem) | HandleBlur

  /** `handleSelectItem(data)()`: `onClickItem(data)` when it is given, then
      `handleBlur()`. The only `onClickItem` the program passes is App's. */
  method HandleSelectItem(onClickItem: Host.App?, select: Async, data: ListItem) returns (calls: seq<Callback>)
    requires onClickItem != null ==> onClickItem.Valid()
    modifies select, onClickItem
    ensures calls == (if onClickItem != null then [OnClickItem(data)] else []) + [HandleBlur]
    ensures select.State() == Blur(old(select.State()))
    ensures onClickItem != null ==>
              onClickItem.Valid() && onClickItem.State() == Host.AfterClickItem(old(onClickItem.State()), data)
  {
    calls := [];
    if onClickItem != null {
      onClickItem.OnClickItem(data);
      calls := calls + [OnClickItem(data)];
    }
    select.HandleBlur();
    calls := calls + [HandleBlur];
  }

  /** A click on row `i` of the open list, composed with App's `onClickItem`
      and the combobox's `handleBlur`: exactly item `i`'s value is selected,
      the list closes and the input loses focus; the text and the list are
      unchanged, and the cover now shows the selection when it is non-empty. */
  lemma ClickRowSelects(host: Host.HostState, s: SelectState, message: Option<string>, i: nat)
    requires ShowsList(s) && i < |host.debouncedList|
    ensures Render(host.debouncedList, message).Rows?
    ensures var after := Host.AfterClickItem(host, Render(host.debouncedList, message).rows[i].item);
      && after.selectedItem == host.debouncedList[i].value
      && after.inputValue == host.inputValue && after.debouncedList == host.debouncedList
      && !Blur(s).isOpenList && !Blur(s).isFocused
      && (ShowsCover(Blur(s), Some(after.selectedItem)) <==> host.debouncedList[i].value != "")
  {
  }
}
