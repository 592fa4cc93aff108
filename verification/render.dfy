/** How missing values turn into text. A template literal (`${x}`) spells a
    missing value out as "undefined"; a JSX text child renders it as nothing. */
module Render {
  import opened Wrappers
  import Text

  const Undefined := "undefined"

  /** `${s}` for an optional string. */
  function TemplateString(s: Option<string>): string
  {
    match s
    case Some(v) => v
    case None => Undefined
  }

  /** `${n}` for an optional whole number. */
  function TemplateInt(n: Option<int>): string
  {
    match n
    case Some(v) => Text.IntToString(v)
    case None => Undefined
  }

  /** `{s}` as a JSX child. */
  function JsxString(s: Option<string>): string
  {
    s.GetOr("")
  }
}
