/** The date status of a project card: upcoming, overdue, or neither. */
module ProjectCardDates {
  import opened Common
  import opened Js

  datatype DateStatus = Upcoming | Overdue
  {
    function Type(): string {
      match this
      case Upcoming => "upcoming"
      case Overdue => "overdue"
    }

    function Message(): string {
      match this
      case Upcoming => "Starts soon"
      case Overdue => "Overdue"
    }
  }

  /** The field holds a date and `now` is before it. A date that does not
      parse compares false. */
  predicate Before(now: int, v: JsValue) {
    Truthy(v) && AsDate(v).Some? && now < AsDate(v).value
  }

  /** The field holds a date and `now` is after it. */
  predicate After(now: int, v: JsValue) {
    Truthy(v) && AsDate(v).Some? && now > AsDate(v).value
  }

  /** `getDateStatus` at time `now`. */
  function DateStatusOf(project: Object, now: int): (r: Option<DateStatus>)
    ensures !Truthy(Get(project, "start_date_c")) && !Truthy(Get(project, "end_date_c")) ==> r == None
    ensures r == Some(Upcoming) <==> Before(now, Get(project, "start_date_c"))
    ensures r == Some(Overdue) <==>
              !Before(now, Get(project, "start_date_c")) && After(now, Get(project, "end_date_c")) &&
              !StrictEquals(Get(project, "status_c"), Str("Completed"))
  {
    var start := Get(project, "start_date_c");
    var end := Get(project, "end_date_c");
    if !Truthy(start) && !Truthy(end) then None
    else if Before(now, start) then Some(Upcoming)
    else if After(now, end) && !StrictEquals(Get(project, "status_c"), Str("Completed")) then Some(Overdue)
    else None
  }

  /** The badge of a date status: 'upcoming' with "Starts soon" exactly when
      the project has not started yet, 'overdue' with "Overdue" otherwise. */
  lemma DateStatusTexts(project: Object, now: int)
    ensures var r := DateStatusOf(project, now);
            r.Some? ==> ((r.value.Type() == "upcoming" && r.value.Message() == "Starts soon") <==>
                         Before(now, Get(project, "start_date_c")))
    ensures var r := DateStatusOf(project, now);
            r.Some? ==> ((r.value.Type() == "overdue" && r.value.Message() == "Overdue") <==>
                         !Before(now, Get(project, "start_date_c")))
  {
  }

  /** A completed project is never overdue, and a project that has not
      started is upcoming even when its end date has passed. */
  lemma CompletedNeverOverdue(project: Object, now: int)
    ensures Get(project, "status_c") == Str("Completed") ==> DateStatusOf(project, now) != Some(Overdue)
    ensures Before(now, Get(project, "start_date_c")) && After(now, Get(project, "end_date_c")) ==>
              DateStatusOf(project, now) == Some(Upcoming)
  {
  }
}
