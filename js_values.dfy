/** The few JavaScript values whose truthiness the combobox tests: an optional
    string prop (`message?`, `displayedValue?`) and a timer handle
    (`number | null`). `undefined` and `null` are both `None`. */
module JsValues {

  datatype Option<T> = None | Some(value: T)

  /** `if (s)` on a `string | undefined`: false for `undefined` and for "". */
  predicate TruthyText(s: Option<string>) {
    s.Some? && s.value != ""
  }

  /** `if (interval)` on a `number | null`: false for `null` and for 0. */
  predicate TruthyHandle(h: Option<nat>) {
    h.Some? && h.value != 0
  }
}
