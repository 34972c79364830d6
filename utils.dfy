/**
 * The shared helpers of the route handlers: the response envelope, the
 * authentication middleware and the two role gates, the weekday and hour of a
 * booking date, and the random date on a given weekday used by the fixture
 * generator.
 */
module Utils {
  import opened Js
  import opened Types
  import opened Calendar
  import opened Tokens
  import opened Store

  /** One entry of express-validator's `errors.array()`: the field and its message. */
  datatype FieldError = FieldError(path: string, msg: string)

  /** One validator of a chain: no entry when it accepts, one entry when it rejects. */
  function Check(ok: bool, path: string, msg: string): (errs: seq<FieldError>)
    ensures errs == [] <==> ok
    ensures !ok ==> errs == [FieldError(path, msg)]
  {
    if ok then [] else [FieldError(path, msg)]
  }

  /** The `message` of a response: a text, a validation error list, or the documents sent back. */
  datatype Payload =
    | EmptyList
    | Text(text: string)
    | FieldErrors(errors: seq<FieldError>)
    | TokenText(token: string)
    | AppointmentDoc(appointment: Appointment)
    | AppointmentDocs(appointments: seq<Appointment>)
    | DoctorDoc(doctor: Doctor)
    | DoctorDocs(doctors: seq<Doctor>)

  /** The JSON body every response shares: `{status, message}`. */
  datatype Envelope = Envelope(status: int, message: Payload)

  /**
   * `generateResponse(status, message)`: a missing or zero status becomes 500, an
   * omitted message becomes the empty list, any other message is passed through.
   */
  function GenerateResponse(status: Option<int>, message: Option<Payload>): (r: Envelope)
    ensures r.status != 0
    ensures status.Some? && status.value != 0 ==> r.status == status.value
    ensures status.None? || status.value == 0 ==> r.status == 500
    ensures message.Some? ==> r.message == message.value
    ensures message.None? ==> r.message == EmptyList
  {
    var m := if message.Some? then message.value else EmptyList;
    Envelope(if status.Some? && status.value != 0 then status.value else 500, m)
  }

  /** The envelope thrown for an error with a text message. */
  function Error(status: int, text: string): Envelope
  {
    GenerateResponse(Some(status), Some(Text(text)))
  }

  /** An uncaught exception: it has no status of its own, so it is reported as 500. */
  function Crash(text: string): Envelope
  {
    GenerateResponse(None, Some(Text(text)))
  }

  /** What the client receives: the HTTP status and the JSON body. */
  datatype Reply = Reply(httpStatus: int, body: Envelope)

  /** A thrown envelope as the error handler sends it: status and message taken from it. */
  function ErrorReply(e: Envelope): (r: Reply)
    ensures e.status != 0 ==> r == Reply(e.status, e)
  {
    var status := if e.status != 0 then e.status else 500;
    Reply(status, Envelope(status, e.message))
  }

  /** The result of a middleware or a check: it lets the request through, or fails it. */
  datatype Outcome<+T> = Pass(value: T) | Fail(error: Envelope)

  // ---------------------------------------------------------------------------
  // Bearer token

  /**
   * `authHeader && authHeader.split(" ")[1]`: the second space-separated field of
   * the Authorization header. An empty header is falsy and is itself the token.
   */
  function ExtractToken(header: Option<string>): (r: Option<string>)
    ensures header.None? ==> r.None?
    ensures header == Some("") ==> r == Some("")
    ensures header.Some? && header.value != "" ==> (r.Some? <==> ' ' in header.value)
    ensures r.Some? ==> ' ' !in r.value
  {
    match header
    case None => None
    case Some(h) =>
      if h == "" then Some(h)
      else
        var fields := Split(h, ' ');
        if |fields| >= 2 then Some(fields[1]) else None
  }

  /** A header `<scheme> <token> ...` yields exactly the token. */
  lemma BearerTokenRoundTrip(fields: seq<string>)
    requires |fields| >= 2
    requires forall i :: 0 <= i < |fields| ==> ' ' !in fields[i]
    ensures ExtractToken(Some(Join(fields, ' '))) == Some(fields[1])
  {
    SplitJoin(fields, ' ');
  }

  // ---------------------------------------------------------------------------
  // Middlewares

  /**
   * `validateAuthentication`: no token gives 401; a token `jwt.verify` rejects as
   * expired gives 401 "Token expired", any other rejection 403; otherwise the
   * verified claims become the request's identity.
   */
  function ValidateAuthentication(header: Option<string>, jwt: Jwt): (r: Outcome<Claims>)
    ensures ExtractToken(header).None? ==> r == Fail(Error(401, UNAUTHORIZED))
    ensures ExtractToken(header).Some? ==>
      var v := jwt.verify(ExtractToken(header).value);
      && (v.Verified? ==> r == Pass(v.claims))
      && (v == Rejected(TokenExpiredError) ==> r == Fail(Error(401, TOKEN_EXPIRED)))
      && (v.Rejected? && v.error != TokenExpiredError ==> r == Fail(Error(403, UNAUTHORIZED)))
    ensures r.Fail? ==> r.error.status in {401, 403}
  {
    match ExtractToken(header)
    case None => Fail(Error(401, UNAUTHORIZED))
    case Some(token) =>
      match jwt.verify(token)
      case Verified(claims) => Pass(claims)
      case Rejected(TokenExpiredError) => Fail(Error(401, TOKEN_EXPIRED))
      case Rejected(_) => Fail(Error(403, UNAUTHORIZED))
  }

  /** The header `Bearer <token>` yields the token. */
  lemma BearerHeader(token: string)
    requires ' ' !in token
    ensures ExtractToken(Some("Bearer " + token)) == Some(token)
  {
    assert Join(["Bearer", token], ' ') == "Bearer " + token;
    BearerTokenRoundTrip(["Bearer", token]);
  }

  /** A token the server signed, sent as `Bearer <token>`, authenticates as the claims it was signed with. */
  lemma SignedTokenAuthenticates(jwt: Jwt, c: Claims)
    requires JwtSound(jwt)
    requires ' ' !in jwt.sign(c)
    ensures ExtractToken(Some("Bearer " + jwt.sign(c))) == Some(jwt.sign(c))
    ensures ValidateAuthentication(Some("Bearer " + jwt.sign(c)), jwt) == Pass(c)
  {
    BearerHeader(jwt.sign(c));
  }

  /**
   * The body shared by `validatePatient` and `validateDoctor`. The token is only
   * decoded, its signature is not checked: no token gives 401; an undecodable
   * token makes the middleware read `role` of `null`, an uncaught TypeError; a
   * role other than `role` gives 401; a `userId` no account has gives 401
   * USER_NOT_FOUND; otherwise the decoded claims become the identity.
   */
  function RoleGate(header: Option<string>, jwt: Jwt, users: seq<User>, role: string): (r: Outcome<Claims>)
    ensures r.Pass? <==>
      && ExtractToken(header).Some?
      && jwt.decode(ExtractToken(header).value).Some?
      && jwt.decode(ExtractToken(header).value).value.role == role
      && HasUserWithId(users, jwt.decode(ExtractToken(header).value).value.userId)
    ensures r.Pass? ==> jwt.decode(ExtractToken(header).value) == Some(r.value) && r.value.role == role
    ensures ExtractToken(header).None? ==> r == Fail(Error(401, UNAUTHORIZED))
    ensures ExtractToken(header).Some? && jwt.decode(ExtractToken(header).value).None? ==> r == Fail(Crash(NULL_ROLE_READ))
    ensures ExtractToken(header).Some? && jwt.decode(ExtractToken(header).value).Some? ==>
      var c := jwt.decode(ExtractToken(header).value).value;
      && (c.role != role ==> r == Fail(Error(401, UNAUTHORIZED)))
      && (c.role == role && !HasUserWithId(users, c.userId) ==> r == Fail(Error(401, USER_NOT_FOUND)))
  {
    match ExtractToken(header)
    case None => Fail(Error(401, UNAUTHORIZED))
    case Some(token) =>
      match jwt.decode(token)
      case None => Fail(Crash(NULL_ROLE_READ))
      case Some(c) =>
        if c.role != role then Fail(Error(401, UNAUTHORIZED))
        else if First(users, (u: User) => u.userId == c.userId).None? then Fail(Error(401, USER_NOT_FOUND))
        else Pass(c)
  }

  /** `validatePatient`: the caller's decoded role is PATIENT and the account still exists. */
  function ValidatePatient(header: Option<string>, jwt: Jwt, users: seq<User>): (r: Outcome<Claims>)
    ensures r.Pass? ==> r.value.role == PATIENT && HasUserWithId(users, r.value.userId)
    ensures r.Pass? ==> ExtractToken(header).Some? && jwt.decode(ExtractToken(header).value) == Some(r.value)
    ensures r.Fail? ==> r.error.status in {401, 500}
  {
    RoleGate(header, jwt, users, PATIENT)
  }

  /** `validateDoctor`: the caller's decoded role is DOCTOR and the account still exists. */
  function ValidateDoctor(header: Option<string>, jwt: Jwt, users: seq<User>): (r: Outcome<Claims>)
    ensures r.Pass? ==> r.value.role == DOCTOR && HasUserWithId(users, r.value.userId)
    ensures r.Pass? ==> ExtractToken(header).Some? && jwt.decode(ExtractToken(header).value) == Some(r.value)
    ensures r.Fail? ==> r.error.status in {401, 500}
  {
    RoleGate(header, jwt, users, DOCTOR)
  }

  // ---------------------------------------------------------------------------
  // Weekday and hour of a date

  /** `getDayName(date)`: the weekday name of the parsed date; an unparsable date gives "Invalid Date". */
  function DayName(parsed: Option<Date>): (r: string)
    ensures parsed.Some? ==> r in DaysOfWeek && WeekdayIndex(r) == Some(DayOfWeek(parsed.value.year, parsed.value.month, parsed.value.day))
    ensures parsed.None? ==> r !in DaysOfWeek
  {
    if parsed.Some? then WeekdayName(parsed.value) else "Invalid Date"
  }

  /** `getHour(date)`: the hour of the parsed date; `None` stands for the `NaN` of an unparsable date. */
  function Hour(parsed: Option<Date>): (r: Option<int>)
    ensures parsed.Some? <==> r.Some?
    ensures r.Some? ==> 0 <= r.value < 24 && r.value == parsed.value.hour
  {
    if parsed.Some? then Some(parsed.value.hour) else None
  }

  // ---------------------------------------------------------------------------
  // generateRandomDateByDay

  /** The calendar position of a day within its year, increasing through the year. */
  function DayKey(t: DateTime): int
  {
    t.month * 32 + t.day
  }

  lemma SameYearEarlier(a: DateTime, b: DateTime)
    requires a.year == b.year && 1 <= a.day <= 31 && 1 <= b.day <= 31
    requires a.hour == b.hour && a.minute == b.minute && a.second == b.second && a.millisecond == b.millisecond
    requires DayKey(a) < DayKey(b)
    ensures Earlier(a, b)
  {
    assert a.month < b.month || (a.month == b.month && a.day < b.day);
    assert Fields(a)[1..] == [a.month, a.day, a.hour, a.minute, a.second, a.millisecond];
    assert Fields(b)[1..] == [b.month, b.day, b.hour, b.minute, b.second, b.millisecond];
  }

  /** Midnights of one year listed in increasing calendar position are in chronological order. */
  lemma InYearOrderIsChronological(dates: seq<Date>, year: int)
    requires forall i :: 0 <= i < |dates| ==> dates[i] == Midnight(year, dates[i].month, dates[i].day)
    requires forall i, j :: 0 <= i < j < |dates| ==> DayKey(dates[i]) < DayKey(dates[j])
    ensures forall i, j :: 0 <= i < j < |dates| ==> Earlier(dates[i], dates[j])
  {
    forall i, j | 0 <= i < j < |dates| ensures Earlier(dates[i], dates[j]) {
      SameYearEarlier(dates[i], dates[j]);
    }
  }

  /**
   * The inner loop of `generateRandomDateByDay`: the days 1..31 of month `month`
   * that `new Date(year, month, day)` keeps in that month and whose weekday is
   * `target`, at midnight, in order.
   */
  method MatchingDaysOfMonth(year: int, month: int, target: Option<int>) returns (found: seq<Date>)
    requires 0 <= year <= 9999 && 0 <= month < 12
    ensures forall i :: 0 <= i < |found| ==>
      found[i] == Midnight(year, month, found[i].day) && target == Some(DayOfWeek(year, month, found[i].day))
    ensures forall d :: ValidDay(year, month, d) && target == Some(DayOfWeek(year, month, d)) ==>
      Midnight(year, month, d) in found
    ensures forall i, j :: 0 <= i < j < |found| ==> found[i].day < found[j].day
    ensures target.None? ==> found == []
  {
    found := [];
    for day := 1 to 32
      invariant forall i :: 0 <= i < |found| ==>
        && found[i] == Midnight(year, month, found[i].day)
        && target == Some(DayOfWeek(year, month, found[i].day))
        && found[i].day < day
      invariant forall d :: 1 <= d < day && ValidDay(year, month, d) && target == Some(DayOfWeek(year, month, d)) ==>
        Midnight(year, month, d) in found
      invariant forall i, j :: 0 <= i < j < |found| ==> found[i].day < found[j].day
      invariant target.None? ==> found == []
    {
      var date := LocalDate(year, month, day);
      if date.year == year && date.month == month && target == Some(DayOfWeek(date.year, date.month, date.day)) {
        found := found + [date];
      }
    }
  }

  /** Every date collected so far is a midnight of `year` before `month`, on the target weekday. */
  ghost predicate CollectedBefore(dates: seq<Date>, year: int, month: int, target: Option<int>)
  {
    forall i :: 0 <= i < |dates| ==>
      && dates[i] == Midnight(year, dates[i].month, dates[i].day)
      && target == Some(DayOfWeek(year, dates[i].month, dates[i].day))
      && dates[i].month < month
  }

  /** Every day of `year` before `month` on the target weekday has been collected. */
  ghost predicate CompleteBefore(dates: seq<Date>, year: int, month: int, target: Option<int>)
  {
    forall m, d :: 0 <= m < month && ValidDay(year, m, d) && target == Some(DayOfWeek(year, m, d)) ==>
      Midnight(year, m, d) in dates
  }

  ghost predicate InCalendarOrder(dates: seq<Date>)
  {
    forall i, j :: 0 <= i < j < |dates| ==> DayKey(dates[i]) < DayKey(dates[j])
  }

  /** Appending the matching days of `month` extends the collection by one month. */
  lemma AppendMonth(dates: seq<Date>, found: seq<Date>, year: int, month: int, target: Option<int>)
    requires 0 <= month < 12
    requires CollectedBefore(dates, year, month, target)
    requires CompleteBefore(dates, year, month, target)
    requires InCalendarOrder(dates)
    requires forall i :: 0 <= i < |found| ==>
      found[i] == Midnight(year, month, found[i].day) && target == Some(DayOfWeek(year, month, found[i].day))
    requires forall d :: ValidDay(year, month, d) && target == Some(DayOfWeek(year, month, d)) ==>
      Midnight(year, month, d) in found
    requires forall i, j :: 0 <= i < j < |found| ==> found[i].day < found[j].day
    ensures CollectedBefore(dates + found, year, month + 1, target)
    ensures CompleteBefore(dates + found, year, month + 1, target)
    ensures InCalendarOrder(dates + found)
  {
    var all := dates + found;
    forall i | 0 <= i < |all|
      ensures all[i] == Midnight(year, all[i].month, all[i].day)
      ensures target == Some(DayOfWeek(year, all[i].month, all[i].day))
      ensures all[i].month < month + 1
    {
      if i >= |dates| {
        assert all[i] == found[i - |dates|];
      }
    }
    forall m, d | 0 <= m < month + 1 && ValidDay(year, m, d) && target == Some(DayOfWeek(year, m, d))
      ensures Midnight(year, m, d) in all
    {
      if m < month {
        assert Midnight(year, m, d) in dates;
      } else {
        assert Midnight(year, m, d) in found;
      }
    }
    forall i, j | 0 <= i < j < |all| ensures DayKey(all[i]) < DayKey(all[j]) {
      if j >= |dates| && i < |dates| {
        assert all[j] == found[j - |dates|];
        assert all[i].month < month && all[j].month == month;
      } else if i >= |dates| {
        assert all[i] == found[i - |dates|] && all[j] == found[j - |dates|];
      }
    }
  }

  /**
   * The candidate list of `generateRandomDateByDay`: every day of `year` whose
   * weekday is named `weekday`, at midnight, in calendar order. An unknown name
   * matches no day.
   */
  method CandidateDates(year: int, weekday: string) returns (dates: seq<Date>)
    requires 0 <= year <= 9999
    ensures forall i :: 0 <= i < |dates| ==>
      && dates[i] == Midnight(year, dates[i].month, dates[i].day)
      && WeekdayIndex(weekday) == Some(DayOfWeek(year, dates[i].month, dates[i].day))
    ensures forall m, d :: ValidDay(year, m, d) && WeekdayIndex(weekday) == Some(DayOfWeek(year, m, d)) ==>
      Midnight(year, m, d) in dates
    ensures forall i, j :: 0 <= i < j < |dates| ==> Earlier(dates[i], dates[j])
    ensures WeekdayIndex(weekday).None? ==> dates == []
    ensures WeekdayIndex(weekday).Some? ==> |dates| > 0
  {
    var target := WeekdayIndex(weekday);
    dates := [];
    for month := 0 to 12
      invariant CollectedBefore(dates, year, month, target)
      invariant CompleteBefore(dates, year, month, target)
      invariant InCalendarOrder(dates)
      invariant target.None? ==> dates == []
    {
      var found := MatchingDaysOfMonth(year, month, target);
      AppendMonth(dates, found, year, month, target);
      dates := dates + found;
    }
    InYearOrderIsChronological(dates, year);
    if target.Some? {
      var d := (target.value - NewYearWeekday(year)) % 7 + 1;
      FirstWeekHasEveryWeekday(year, target.value);
      assert Midnight(year, 0, d) in dates;
    }
  }

  /**
   * `generateRandomDateByDay(weekday, hour)`: one of the candidate days of the
   * current `year`, drawn at random, with its hour set to `hour`. For an unknown
   * weekday name the list is empty and `setHours` is called on `undefined`: `None`.
   * The source returns this date's `toISOString()`.
   */
  method RandomDateByDay(weekday: string, hour: int, year: int) returns (r: Option<Date>)
    requires 0 <= year <= 9999
    requires 0 <= hour < 24
    ensures r.None? <==> weekday !in WeekdayNames
    ensures r.Some? ==> && r.value.year == year
                        && WeekdayName(r.value) == weekday
                        && r.value.hour == hour
                        && r.value.minute == 0 && r.value.second == 0 && r.value.millisecond == 0
  {
    var dates := CandidateDates(year, weekday);
    if |dates| == 0 {
      return None;
    }
    var index :| 0 <= index < |dates|;  // Math.floor(Math.random() * dates.length)
    var date := dates[index];
    r := Some(date.(hour := hour));
  }
}
