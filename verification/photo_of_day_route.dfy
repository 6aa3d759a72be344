/**
 * The photo service's `/photo-of-day` endpoints: choosing the time window, normalising the
 * date strings, and turning the statistics service's answer into a reply. Parsing an ISO
 * date (`datetime.fromisoformat` followed by `.timestamp()`) is the parameter `parse`, which
 * yields seconds or None for a string it rejects; the statistics query is the parameter
 * `bestPhoto`; the photo collection is the map `photos`.
 */
module PhotoOfDayRoute {
  import opened Common
  import opened Text
  import opened PhotoModels

  type PhotoKey = (string, nat)

  /** What the statistics service answers for a window: the most reacted photo. */
  datatype Winner = Winner(displayName: string, photoId: nat, photoUrl: string, totalReactions: int,
                           breakdown: map<string, nat>)

  /** A time window in seconds and its description. */
  datatype Period = Period(start: int, end: int, description: string)

  /** Why a request did not produce a photo. */
  datatype RouteError =
    | QueryValidation           // a query parameter outside its declared range
    | StartNotBeforeEnd
    | InvalidDateFormat
    | NoPhotoFound(message: string)
    | PhotoMissingFromDatabase
    | DatabaseUnavailable
    | InternalError             // a caught exception, answered as {"error": ...}
    | UnhandledException        // an exception that escapes the handler
  {
    function Status(): (code: int)
      ensures code in {400, 404, 422, 500, 503}
      ensures code == 400 <==> (StartNotBeforeEnd? || InvalidDateFormat?)
    {
      match this
      case QueryValidation => 422
      case StartNotBeforeEnd => 400
      case InvalidDateFormat => 400
      case NoPhotoFound(_) => 404
      case PhotoMissingFromDatabase => 500
      case DatabaseUnavailable => 503
      case InternalError => 500
      case UnhandledException => 500
    }
  }

  /** The headers of an image reply; the numbers are kept as numbers. */
  datatype ImageHeaders = ImageHeaders(
    displayName: string, photoId: nat, title: string, author: string, location: string,
    totalReactions: int, breakdown: map<string, nat>, periodStart: int, periodEnd: int)

  datatype Reply =
    | ImageReply(content: seq<Byte>, mediaType: string, headers: ImageHeaders)
    | JsonReply(photo: Photo, winner: Winner, period: Period)
    | StatsReply(photo: Photo, winner: Winner, start: int, end: int)
    | ErrorReply(error: RouteError)

  // ---------------------------------------------------------------- date strings

  /** `s.replace(c, '')`. */
  function RemoveAll(s: string, c: char): (r: string)
    ensures c !in r
    ensures |r| <= |s|
    ensures forall x :: x != c ==> (x in r <==> x in s)
    ensures c !in s ==> r == s
  {
    if s == [] then []
    else (if s[0] == c then [] else [s[0]]) + RemoveAll(s[1..], c)
  }

  /** The time a start date without one gets: midnight. */
  const StartOfDay := "T00:00:00"

  /** The time an end date without one gets: the last second of the day. */
  const EndOfDay := "T23:59:59"

  /** A date without a time gets `dayTime` appended; one with a time loses every 'Z'. */
  function NormalizeDate(s: string, dayTime: string): (r: string)
    requires 'T' in dayTime
    ensures 'T' in r
    ensures 'T' in s ==> r == RemoveAll(s, 'Z') && 'Z' !in r
    ensures 'T' !in s ==> r == s + dayTime
  {
    if 'T' in s then RemoveAll(s, 'Z') else s + dayTime
  }

  /** A string that already has a time and no 'Z' is left as it is. */
  lemma NormalizeKeepsPlainTimestamps(s: string, dayTime: string)
    requires 'T' in dayTime
    requires 'T' in s && 'Z' !in s
    ensures NormalizeDate(s, dayTime) == s
  {
  }

  /** Normalising a normalised string that had a time changes nothing more. */
  lemma NormalizeIdempotentWithTime(s: string, dayTime: string)
    requires 'T' in dayTime
    requires 'T' in s
    ensures NormalizeDate(NormalizeDate(s, dayTime), dayTime) == NormalizeDate(s, dayTime)
  {
  }

  // ---------------------------------------------------------------- period

  /** A query value counts as given when it is present and non-empty (`if start_date and end_date`). */
  predicate Given(v: Option<string>) { v.Some? && v.value != "" }

  datatype PeriodChoice = Chosen(period: Period) | Refused(error: RouteError)

  /** The default window: the last `days` days up to `now`. */
  function DefaultPeriod(days: int, now: int): (p: Period)
    ensures p.end == now && p.start == now - days * 86400
  {
    Period(now - days * 86400, now, "last " + IntToDecimal(days) + " day(s)")
  }

  /**
   * The window of `get_photo_of_day` (lines 42-64): both dates given, normalised, parsed
   * (start first), and the start strictly before the end; otherwise the default window.
   */
  function SelectPeriod(days: int, startDate: Option<string>, endDate: Option<string>, now: int,
                        parse: string -> Option<int>): (r: PeriodChoice)
    ensures !(Given(startDate) && Given(endDate)) ==> r == Chosen(DefaultPeriod(days, now))
    ensures Given(startDate) && Given(endDate) ==>
      var s := parse(NormalizeDate(startDate.value, StartOfDay));
      var e := parse(NormalizeDate(endDate.value, EndOfDay));
      && (s.None? || e.None? ==> r == Refused(InvalidDateFormat))
      && (s.Some? && e.Some? && s.value >= e.value ==> r == Refused(StartNotBeforeEnd))
      && (r.Chosen? <==> s.Some? && e.Some? && s.value < e.value)
      && (r.Chosen? ==> r.period.start == s.value && r.period.end == e.value && r.period.start < r.period.end)
  {
    if Given(startDate) && Given(endDate) then
      var s := parse(NormalizeDate(startDate.value, StartOfDay));
      if s.None? then Refused(InvalidDateFormat)
      else
        var e := parse(NormalizeDate(endDate.value, EndOfDay));
        if e.None? then Refused(InvalidDateFormat)
        else if s.value >= e.value then Refused(StartNotBeforeEnd)
        else Chosen(Period(s.value, e.value, "from " + startDate.value + " to " + endDate.value))
    else Chosen(DefaultPeriod(days, now))
  }

  // ---------------------------------------------------------------- replies

  /** `value or "Unknown"`. */
  function OrUnknown(s: string): (r: string)
    ensures r != ""
    ensures s != "" ==> r == s
  {
    if s == "" then "Unknown" else s
  }

  function Headers(p: Photo, w: Winner, period: Period): ImageHeaders {
    ImageHeaders(p.displayName, p.photoId, p.meta.title, OrUnknown(p.meta.author), OrUnknown(p.meta.location),
                 w.totalReactions, w.breakdown, period.start, period.end)
  }

  /**
   * GET /photo-of-day (lines 33-149): the query bounds, the window, the statistics answer
   * (404 without one), the photo (500 when the statistics name a photo the collection lacks),
   * then the image with its headers or the JSON description.
   */
  function GetPhotoOfDay(days: int, startDate: Option<string>, endDate: Option<string>, format: string,
                         now: int, parse: string -> Option<int>, bestPhoto: (int, int) -> Option<Winner>,
                         photos: map<PhotoKey, Photo>): (r: Reply)
    ensures !(1 <= days <= 365) || format !in {"image", "json"} ==> r == ErrorReply(QueryValidation)
    ensures 1 <= days <= 365 && format in {"image", "json"} ==>
      var choice := SelectPeriod(days, startDate, endDate, now, parse);
      && (choice.Refused? ==> r == ErrorReply(choice.error))
      && (choice.Chosen? ==>
            var w := bestPhoto(choice.period.start, choice.period.end);
            && (w.None? ==> r == ErrorReply(NoPhotoFound("No photo found for " + choice.period.description)))
            && (w.Some? && (w.value.displayName, w.value.photoId) !in photos ==> r == ErrorReply(PhotoMissingFromDatabase))
            && (w.Some? && (w.value.displayName, w.value.photoId) in photos ==>
                  var p := photos[(w.value.displayName, w.value.photoId)];
                  r == if format == "json" then JsonReply(p, w.value, choice.period)
                       else ImageReply(p.imageData, "image/jpeg", Headers(p, w.value, choice.period))))
  {
    if !(1 <= days <= 365) || format !in {"image", "json"} then ErrorReply(QueryValidation)
    else
      match SelectPeriod(days, startDate, endDate, now, parse)
      case Refused(e) => ErrorReply(e)
      case Chosen(period) =>
        match bestPhoto(period.start, period.end)
        case None => ErrorReply(NoPhotoFound("No photo found for " + period.description))
        case Some(w) =>
          if (w.displayName, w.photoId) !in photos then ErrorReply(PhotoMissingFromDatabase)
          else
            var p := photos[(w.displayName, w.photoId)];
            if format == "json" then JsonReply(p, w, period)
            else ImageReply(p.imageData, "image/jpeg", Headers(p, w, period))
  }

  /**
   * A photo reply carries the photo the statistics named, as stored: its data as JPEG for the
   * image format, its record for the JSON format; an explicit window in it is non-empty.
   */
  lemma PhotoOfDayServesWinner(days: int, startDate: Option<string>, endDate: Option<string>, format: string,
                               now: int, parse: string -> Option<int>, bestPhoto: (int, int) -> Option<Winner>,
                               photos: map<PhotoKey, Photo>)
    requires forall k :: k in photos ==> photos[k].Key() == k
    ensures var r := GetPhotoOfDay(days, startDate, endDate, format, now, parse, bestPhoto, photos);
      && !r.StatsReply?
      && (r.JsonReply? ==>
            && format == "json"
            && (r.winner.displayName, r.winner.photoId) in photos
            && photos[(r.winner.displayName, r.winner.photoId)] == r.photo
            && bestPhoto(r.period.start, r.period.end) == Some(r.winner)
            && (Given(startDate) && Given(endDate) ==> r.period.start < r.period.end))
      && (r.ImageReply? ==>
            && format == "image" && r.mediaType == "image/jpeg"
            && (r.headers.displayName, r.headers.photoId) in photos
            && r.content == photos[(r.headers.displayName, r.headers.photoId)].imageData
            && r.headers.author != "" && r.headers.location != "")
  {
  }

  /** The two ways an exception can end the handler: a store timeout, or anything else (such as a rejected date). */
  datatype HandlerException = ServerSelectionTimeout | OtherException

  /**
   * The `except` clauses at lines 142-149 and 216-223 as written: the first names `pymongo`,
   * which the module never imports, so evaluating it raises a NameError and no clause
   * handles the original exception.
   */
  function CaughtAsWritten(e: HandlerException): (err: RouteError)
    ensures err == UnhandledException && err.Status() == 500
  {
    UnhandledException
  }

  /** The same clauses with `pymongo` in scope: a timeout is a 503, anything else a JSON 500. */
  function Caught(e: HandlerException): (err: RouteError)
    ensures e.ServerSelectionTimeout? ==> err == DatabaseUnavailable && err.Status() == 503
    ensures e.OtherException? ==> err == InternalError && err.Status() == 500
  {
    match e
    case ServerSelectionTimeout => DatabaseUnavailable
    case OtherException => InternalError
  }

  /** A store timeout: answered 500 by the code as written instead of 503. */
  lemma TimeoutNotMappedAsWritten()
    ensures CaughtAsWritten(ServerSelectionTimeout).Status() == 500
    ensures Caught(ServerSelectionTimeout).Status() == 503
    ensures CaughtAsWritten(OtherException) != Caught(OtherException)
  {
  }

  /**
   * GET /photo-of-day/stats (lines 158-223): the raw date strings are parsed without
   * normalisation and without the start-before-end check; a rejected date raises inside the
   * handler and goes to the `except` clauses at lines 216-223, which are the parameter
   * `caught`: `CaughtAsWritten` for the code as written, `Caught` for the clauses with
   * `pymongo` imported.
   */
  function GetPhotoOfDayStats(caught: HandlerException -> RouteError, days: int,
                              startDate: Option<string>, endDate: Option<string>, now: int,
                              parse: string -> Option<int>, bestPhoto: (int, int) -> Option<Winner>,
                              photos: map<PhotoKey, Photo>): (r: Reply)
    ensures !(1 <= days <= 365) ==> r == ErrorReply(QueryValidation)
    ensures 1 <= days <= 365 && Given(startDate) && Given(endDate)
              && (parse(startDate.value).None? || parse(endDate.value).None?)
            ==> r == ErrorReply(caught(OtherException))
    ensures r.StatsReply? ==>
      && (Given(startDate) && Given(endDate) ==> Some(r.start) == parse(startDate.value) && Some(r.end) == parse(endDate.value))
      && (!(Given(startDate) && Given(endDate)) ==> r.start == now - days * 86400 && r.end == now)
      && bestPhoto(r.start, r.end) == Some(r.winner)
      && (r.winner.displayName, r.winner.photoId) in photos
      && photos[(r.winner.displayName, r.winner.photoId)] == r.photo
    ensures r.ErrorReply? ==>
      r.error in {QueryValidation, NoPhotoFound("No photo found"), PhotoMissingFromDatabase, caught(OtherException)}
  {
    if !(1 <= days <= 365) then ErrorReply(QueryValidation)
    else
      var window :=
        if Given(startDate) && Given(endDate) then
          match (parse(startDate.value), parse(endDate.value))
          case (Some(s), Some(e)) => Some((s, e))
          case _ => None
        else Some((now - days * 86400, now));
      if window.None? then ErrorReply(caught(OtherException))
      else
        var (start, end) := window.value;
        match bestPhoto(start, end)
        case None => ErrorReply(NoPhotoFound("No photo found"))
        case Some(w) =>
          if (w.displayName, w.photoId) !in photos then ErrorReply(PhotoMissingFromDatabase)
          else StatsReply(photos[(w.displayName, w.photoId)], w, start, end)
  }

  /**
   * A date `fromisoformat` rejects, sent to /stats: as written the request ends in an
   * unhandled 500; with the clauses as intended it gets the JSON 500 of `except Exception`.
   * Neither is the 400 the main endpoint answers.
   */
  lemma StatsRejectedDate(days: int, startDate: string, endDate: string, now: int,
                          parse: string -> Option<int>, bestPhoto: (int, int) -> Option<Winner>,
                          photos: map<PhotoKey, Photo>)
    requires 1 <= days <= 365 && startDate != "" && endDate != ""
    requires parse(startDate).None? || parse(endDate).None?
    ensures GetPhotoOfDayStats(CaughtAsWritten, days, Some(startDate), Some(endDate), now, parse, bestPhoto, photos)
            == ErrorReply(UnhandledException)
    ensures GetPhotoOfDayStats(Caught, days, Some(startDate), Some(endDate), now, parse, bestPhoto, photos)
            == ErrorReply(InternalError)
    ensures GetPhotoOfDayStats(CaughtAsWritten, days, Some(startDate), Some(endDate), now, parse, bestPhoto, photos)
            .error.Status() == 500
  {
  }

  /**
   * A window whose start is not before its end: the main endpoint refuses it with 400, the
   * /stats endpoint queries it.
   */
  lemma RoutesDisagreeOnReversedWindow(startDate: string, endDate: string, now: int,
                                       parse: string -> Option<int>, bestPhoto: (int, int) -> Option<Winner>,
                                       photos: map<PhotoKey, Photo>)
    requires startDate != "" && endDate != ""
    requires 'T' in startDate && 'Z' !in startDate && 'T' in endDate && 'Z' !in endDate
    requires parse(startDate).Some? && parse(endDate).Some? && parse(startDate).value >= parse(endDate).value
    ensures GetPhotoOfDay(1, Some(startDate), Some(endDate), "json", now, parse, bestPhoto, photos)
            == ErrorReply(StartNotBeforeEnd)
    ensures GetPhotoOfDayStats(CaughtAsWritten, 1, Some(startDate), Some(endDate), now, parse, bestPhoto, photos).ErrorReply? ==>
            GetPhotoOfDayStats(CaughtAsWritten, 1, Some(startDate), Some(endDate), now, parse, bestPhoto, photos).error.Status() != 400
    ensures GetPhotoOfDayStats(Caught, 1, Some(startDate), Some(endDate), now, parse, bestPhoto, photos).ErrorReply? ==>
            GetPhotoOfDayStats(Caught, 1, Some(startDate), Some(endDate), now, parse, bestPhoto, photos).error.Status() != 400
  {
    NormalizeKeepsPlainTimestamps(startDate, StartOfDay);
    NormalizeKeepsPlainTimestamps(endDate, EndOfDay);
  }
}
