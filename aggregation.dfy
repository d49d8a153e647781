/** Aggregation of the two upstream fetches into one snapshot. */
module Aggregation {
  import opened CalendarTypes

  /** Outcomes of the two source fetches for one request: `None` when that
      fetcher raised. */
  datatype Fetches = Fetches(netology: Option<NetologyCalendar>, modeus: Option<seq<Lesson>>)

  /** Joins the two fetches all-or-nothing, as the task group does: a snapshot
      exists only when both fetches produced a value, and it holds exactly
      those two values. */
  function GetCalendar(f: Fetches): (r: Result<Snapshot>)
    ensures r.Ok? <==> f.netology.Some? && f.modeus.Some?
    ensures r.Ok? ==> r.value.netology == f.netology.value && r.value.modeus == f.modeus.value
    ensures r.Err? ==> r.error == UpstreamFailure
  {
    match (f.netology, f.modeus)
    case (Some(n), Some(m)) => Ok(Snapshot(n, m))
    case _ => Err(UpstreamFailure)
  }
}
