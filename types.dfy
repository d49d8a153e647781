/** Values shared by the calendar aggregation pipeline: the two upstream
    event kinds, the aggregated snapshot, request arguments and the error
    kinds the pipeline reports. */
module CalendarTypes {

  datatype Option<+T> = None | Some(value: T)

  /** Outcome of an operation of the pipeline: a value or one of its error kinds. */
  datatype Result<+T> = Ok(value: T) | Err(error: Error)

  /** Error kinds surfaced to the HTTP layer. */
  datatype Error =
    | WrongTimezone        // export: the zone name is not in the timezone database
    | UpstreamFailure      // one of the two source fetches raised
    | CacheRefreshFailure  // refresh: the backend write raised

  /** Status class of each error kind; the two raised as HTTP exceptions
      carry their own codes, an upstream failure surfaces as a server error. */
  function StatusCode(e: Error): (code: int)
    ensures 400 <= code < 600
    ensures code < 500 <==> e == WrongTimezone
  {
    match e
    case WrongTimezone => 400
    case UpstreamFailure => 500
    case CacheRefreshFailure => 500
  }

  /** A timezone-aware point in time, in seconds since the epoch. */
  type Instant = int

  /** A Netology webinar; either time may be missing. */
  datatype Webinar = Webinar(
    id: int,
    title: string,
    startsAt: Option<Instant>,
    endsAt: Option<Instant>,
    webinarUrl: Option<string>)

  /** The Netology part of a snapshot. */
  datatype NetologyCalendar = NetologyCalendar(webinars: seq<Webinar>)

  /** A Modeus lesson; both times are always present. */
  datatype Lesson = Lesson(
    id: string,
    name: string,
    startTime: Instant,
    endTime: Instant,
    description: Option<string>)

  /** One aggregated calendar: both sources' events for one request. */
  datatype Snapshot = Snapshot(netology: NetologyCalendar, modeus: seq<Lesson>)

  /** A snapshot returned by refresh, with the change flag attached. */
  datatype Refreshed = Refreshed(calendar: Snapshot, changed: bool)

  /** The four request arguments every calendar operation takes. The events
      query body and the Netology cookies are kept as their serialised text. */
  datatype Request = Request(body: string, jwtToken: string, calendarId: int, cookies: string)
}
