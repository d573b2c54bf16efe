/** The status badge of a project: the text it shows and its colours. */
module StatusBadge {
  import opened Common
  import opened Js
  import Text

  const GrayStyle: string := "bg-gray-100 text-gray-700 border-gray-200"
  const BlueStyle: string := "bg-blue-100 text-blue-700 border-blue-200"
  const GreenStyle: string := "bg-green-100 text-green-700 border-green-200"
  const RedStyle: string := "bg-red-100 text-red-700 border-red-200"

  /** `status || 'Not Started'`: shown as given, not lowercased. */
  function DisplayStatus(status: JsValue): (r: JsValue)
    ensures Truthy(status) ==> r == status
    ensures !Truthy(status) ==> r == Str("Not Started")
  {
    Or(status, Str("Not Started"))
  }

  /** `getStatusStyles`: chosen by the lowercased status; anything else gets
      the gray style of 'not started'. */
  function StatusStyles(status: JsValue): (style: string)
    ensures style in {GrayStyle, BlueStyle, GreenStyle, RedStyle}
    ensures !status.Str? ==> style == GrayStyle
    ensures status.Str? && Text.Lower(status.s) == "not started" ==> style == GrayStyle
    ensures status.Str? && Text.Lower(status.s) == "in progress" ==> style == BlueStyle
    ensures status.Str? && Text.Lower(status.s) == "completed" ==> style == GreenStyle
    ensures status.Str? && Text.Lower(status.s) == "cancelled" ==> style == RedStyle
  {
    if !status.Str? then GrayStyle
    else match Text.Lower(status.s)
      case "not started" => GrayStyle
      case "in progress" => BlueStyle
      case "completed" => GreenStyle
      case "cancelled" => RedStyle
      case _ => GrayStyle
  }

  /** The badge's style is that of the displayed status. */
  function BadgeStyle(status: JsValue): string {
    StatusStyles(DisplayStatus(status))
  }

  /** Style selection ignores case, and an unknown status looks like 'not started'. */
  lemma StylesIgnoreCase(s: string)
    ensures StatusStyles(Str(s)) == StatusStyles(Str(Text.Lower(s)))
    ensures Text.Lower(s) !in {"in progress", "completed", "cancelled"} ==>
              StatusStyles(Str(s)) == StatusStyles(Str("not started"))
  {
    Text.LowerIdempotent(s);
    assert Text.Lower("not started") == "not started";
  }

  /** A missing status shows 'Not Started' in the gray style; a given one
      shows its own text unchanged. */
  lemma MissingStatusShowsNotStarted(s: string)
    ensures BadgeStyle(Null) == GrayStyle && DisplayStatus(Undefined) == Str("Not Started")
    ensures s != "" ==> DisplayStatus(Str(s)) == Str(s)
  {
    assert Text.Lower("Not Started") == "not started";
  }
}
