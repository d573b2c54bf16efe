/** The priority badge: variant, icon and label for a task priority. */
module PriorityBadge {
  import opened Common
  import Text

  datatype PriorityConfig = PriorityConfig(variant: string, icon: string, text: string)

  /** `getPriorityConfig`: chosen by the lowercased priority; a missing or
      unknown priority gets the "Normal" badge. */
  function PriorityConfigOf(priority: Option<string>): (c: PriorityConfig)
    ensures priority.None? ==> c == PriorityConfig("default", "Circle", "Normal")
  {
    match priority
    case None => PriorityConfig("default", "Circle", "Normal")
    case Some(p) =>
      match Text.Lower(p)
      case "high" => PriorityConfig("high", "AlertCircle", "High")
      case "medium" => PriorityConfig("medium", "Circle", "Medium")
      case "low" => PriorityConfig("low", "Minus", "Low")
      case _ => PriorityConfig("default", "Circle", "Normal")
  }

  /** Matching ignores case; for the three known priorities the variant is
      the lowercased priority, and any other priority gets "default". */
  lemma PriorityIgnoresCase(p: string)
    ensures PriorityConfigOf(Some(p)) == PriorityConfigOf(Some(Text.Lower(p)))
    ensures Text.Lower(p) in {"high", "medium", "low"} ==> PriorityConfigOf(Some(p)).variant == Text.Lower(p)
    ensures Text.Lower(p) !in {"high", "medium", "low"} ==> PriorityConfigOf(Some(p)) == PriorityConfigOf(None)
  {
    Text.LowerIdempotent(p);
  }

  /** A known priority, in any casing, gets its own variant, icon and label. */
  lemma KnownLabels(p: string)
    ensures Text.Lower(p) == "high" ==> PriorityConfigOf(Some(p)) == PriorityConfig("high", "AlertCircle", "High")
    ensures Text.Lower(p) == "medium" ==> PriorityConfigOf(Some(p)) == PriorityConfig("medium", "Circle", "Medium")
    ensures Text.Lower(p) == "low" ==> PriorityConfigOf(Some(p)) == PriorityConfig("low", "Minus", "Low")
  {
  }
}
