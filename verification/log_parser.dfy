/**
 Per-row derivation of the time-of-day and failure columns of a login record
 (utils/log_parser.py). A timestamp is a naive date-time, held as the signed
 number of seconds since 1970-01-01 00:00:00; the text form it is parsed from
 is not part of this model.
 */
module LogParser {

  const SecondsPerHour: int := 3600
  const SecondsPerDay: int := 86400

  /** The hours of the day that count as night: before 06:00 or after 22:59. */
  const NightHours: set<int> := {0, 1, 2, 3, 4, 5, 23}

  /** The one login status that marks a failed attempt. */
  const FailureStatus: string := "failure"

  datatype Timestamp = Timestamp(seconds: int)

  /** A raw login record as it enters the parser. */
  datatype LoginEvent = LoginEvent(
    timestamp: Timestamp,
    userId: string,
    ipAddress: string,
    loginStatus: string,
    deviceType: string,
    location: string)

  /** A login record with the three derived columns added. */
  datatype ParsedRow = ParsedRow(
    timestamp: Timestamp,
    userId: string,
    ipAddress: string,
    loginStatus: string,
    deviceType: string,
    location: string,
    hour: int,
    isNight: int,
    loginFailed: int)

  predicate IsFlag(x: int) {
    x == 0 || x == 1
  }

  /** Hour of the day of a timestamp; floor division, so instants before 1970 get the right hour too. */
  function HourOf(t: Timestamp): (h: int)
    ensures 0 <= h <= 23
  {
    (t.seconds / SecondsPerHour) % 24
  }

  /** A positive multiple of a positive number is at least that number. */
  lemma MultipleAtLeast(k: int, d: int)
    requires k >= 1 && d > 0
    ensures k * d >= d
  {
    assert k * d == (k - 1) * d + d;
  }

  /** Unique quotient and remainder of Euclidean division. */
  lemma DivModUnique(n: int, d: int, q: int, r: int)
    requires d > 0 && 0 <= r < d && n == q * d + r
    ensures n / d == q && n % d == r
  {
    var q' := n / d;
    var r' := n % d;
    assert n == q' * d + r';
    if q' < q {
      assert (q - q') * d == r' - r;
      MultipleAtLeast(q - q', d);
    } else if q' > q {
      assert (q' - q) * d == r - r';
      MultipleAtLeast(q' - q, d);
    }
  }

  /** A timestamp written as day, hour and seconds-into-the-hour has exactly that hour. */
  lemma {:induction false} HourOfClockTime(day: int, h: int, s: int)
    requires 0 <= h <= 23 && 0 <= s < SecondsPerHour
    ensures HourOf(Timestamp(day * SecondsPerDay + h * SecondsPerHour + s)) == h
  {
    var n := day * SecondsPerDay + h * SecondsPerHour + s;
    assert n == (day * 24 + h) * SecondsPerHour + s;
    DivModUnique(n, SecondsPerHour, day * 24 + h, s);
    DivModUnique(day * 24 + h, 24, day, h);
  }

  /** The night flag: 1 for hours before 6 or after 22, else 0. */
  function NightFlag(hour: int): (f: int)
    ensures IsFlag(f)
    ensures 0 <= hour <= 23 ==> (f == 1 <==> hour in NightHours)
  {
    if hour < 6 || hour > 22 then 1 else 0
  }

  /** The failure flag: 1 exactly for the status "failure", 0 for every other string. */
  function FailureFlag(status: string): (f: int)
    ensures IsFlag(f)
    ensures f == 1 <==> status == FailureStatus
  {
    if status == FailureStatus then 1 else 0
  }

  lemma NightBoundaries()
    ensures NightFlag(5) == 1 && NightFlag(23) == 1
    ensures NightFlag(6) == 0 && NightFlag(22) == 0
  {
  }

  /** The status comparison is exact: case or padding variants are not failures. */
  lemma FailureIsExactMatch()
    ensures FailureFlag("failure") == 1
    ensures FailureFlag("Failure") == 0 && FailureFlag("failure ") == 0 && FailureFlag("success") == 0
  {
  }

  /** Adds hour, night flag and failure flag to one record, leaving its own fields as they were. */
  function ParseRow(e: LoginEvent): (r: ParsedRow)
    ensures r.timestamp == e.timestamp && r.userId == e.userId && r.ipAddress == e.ipAddress
    ensures r.loginStatus == e.loginStatus && r.deviceType == e.deviceType && r.location == e.location
    ensures 0 <= r.hour <= 23 && r.hour == HourOf(e.timestamp)
    ensures IsFlag(r.isNight) && (r.isNight == 1 <==> r.hour in NightHours)
    ensures IsFlag(r.loginFailed) && (r.loginFailed == 1 <==> e.loginStatus == FailureStatus)
  {
    var hour := HourOf(e.timestamp);
    ParsedRow(e.timestamp, e.userId, e.ipAddress, e.loginStatus, e.deviceType, e.location,
              hour, NightFlag(hour), FailureFlag(e.loginStatus))
  }

  /** Column-wise parsing of a whole table, one output row per input row. */
  function ParseLogs(events: seq<LoginEvent>): (rows: seq<ParsedRow>)
    ensures |rows| == |events|
    ensures forall i :: 0 <= i < |events| ==> rows[i] == ParseRow(events[i])
  {
    if |events| == 0 then []
    else ParseLogs(events[..|events| - 1]) + [ParseRow(events[|events| - 1])]
  }

  /** Parsing a table in two pieces gives the same rows as parsing it whole. */
  lemma ParseLogsAppend(a: seq<LoginEvent>, b: seq<LoginEvent>)
    ensures ParseLogs(a + b) == ParseLogs(a) + ParseLogs(b)
  {
    var lhs := ParseLogs(a + b);
    var rhs := ParseLogs(a) + ParseLogs(b);
    assert |lhs| == |rhs|;
    forall i | 0 <= i < |lhs|
      ensures lhs[i] == rhs[i]
    {
      if i < |a| {
        assert (a + b)[i] == a[i];
      } else {
        assert (a + b)[i] == b[i - |a|];
      }
    }
  }
}
