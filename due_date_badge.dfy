/** The due-date badge of a task: overdue, due within a day, or neither. */
module DueDateBadge {
  import opened Common
  import opened Js

  /** One day in milliseconds; `addDays(now, 1)` is taken as `now + Day`. */
  const Day: int := 86_400_000

  /** `isBefore(due, now)`. */
  predicate IsOverdue(due: int, now: int) {
    due < now
  }

  /** `isAfter(due, now) && isBefore(due, tomorrow)`. */
  predicate IsDueSoon(due: int, now: int) {
    now < due < now + Day
  }

  /** `getDateVariant` for a badge that renders: "error" when overdue, else
      "warning" when due soon, else "default"; a due value that does not
      parse is neither. `None` when there is no due date and nothing renders. */
  function DateVariant(dueDate: JsValue, now: int): (r: Option<string>)
    ensures r.None? <==> !Truthy(dueDate)
    ensures r.Some? ==> r.value in {"error", "warning", "default"}
    ensures r == Some("error") <==> Truthy(dueDate) && AsDate(dueDate).Some? && IsOverdue(AsDate(dueDate).value, now)
    ensures r == Some("warning") <==> Truthy(dueDate) && AsDate(dueDate).Some? && IsDueSoon(AsDate(dueDate).value, now)
  {
    if !Truthy(dueDate) then None
    else match AsDate(dueDate)
      case None => Some("default")
      case Some(due) =>
        if IsOverdue(due, now) then Some("error")
        else if IsDueSoon(due, now) then Some("warning")
        else Some("default")
  }

  /** Overdue and due soon never hold together, and a task due exactly now,
      or a day or more ahead, gets the plain badge. */
  lemma VariantBoundaries(due: int, now: int)
    ensures !(IsOverdue(due, now) && IsDueSoon(due, now))
    ensures DateVariant(Time(now), now) == Some("default")
    ensures due >= now + Day ==> DateVariant(Time(due), now) == Some("default")
  {
  }
}
