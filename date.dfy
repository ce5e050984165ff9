/**
 * Date helpers: the "time ago" label, the countdown decomposition and the
 * past/future tests. The clock is a parameter `now`; all instants are
 * milliseconds since the epoch.
 */
module Date {

  datatype TimeUnit = Minute | Hour | Day | Month | Year

  /** A relative-time label before it is spelled out: "just now" or "<count> <unit> ago". */
  datatype Distance = JustNow | Ago(count: int, unit: TimeUnit)

  /** Seconds in one unit; a month is 30 days and a year 12 such months. */
  function SecondsPerUnit(u: TimeUnit): int
  {
    match u
    case Minute => 60
    case Hour => 3600
    case Day => 86400
    case Month => 2592000
    case Year => 31104000
  }

  /** The bucket chain of `formatDistanceToNow` on the elapsed whole seconds (floor divisions). */
  function DistanceBucket(diffInSeconds: int): (r: Distance)
    ensures r.JustNow? <==> diffInSeconds < 60
    ensures r.Ago? ==> r.count >= 1
  {
    if diffInSeconds < 60 then JustNow
    else
      var diffInMinutes := diffInSeconds / 60;
      if diffInMinutes < 60 then Ago(diffInMinutes, Minute)
      else
        var diffInHours := diffInMinutes / 60;
        if diffInHours < 24 then Ago(diffInHours, Hour)
        else
          var diffInDays := diffInHours / 24;
          if diffInDays < 30 then Ago(diffInDays, Day)
          else
            var diffInMonths := diffInDays / 30;
            if diffInMonths < 12 then Ago(diffInMonths, Month)
            else Ago(diffInMonths / 12, Year)
  }

  /** Floor division twice is floor division by the product. */
  lemma DivDiv(a: int, b: int, c: int)
    requires b > 0 && c > 0
    ensures (a / b) / c == a / (b * c)
  {
    var q1, r1 := a / b, a % b;
    var q2, r2 := q1 / c, q1 % c;
    var bc := b * c;
    assert a == b * q1 + r1;
    assert q1 == c * q2 + r2;
    assert b * q1 == bc * q2 + b * r2 by {
      MulSplit(b, c, q2, r2);
    }
    assert 0 <= b * r2 <= bc - b by {
      MulBelow(b, r2, c);
    }
    DivUnique(a, bc, q2, b * r2 + r1);
  }

  /** `b * (c * q + r) == (b * c) * q + b * r`. */
  lemma MulSplit(b: int, c: int, q: int, r: int)
    ensures b * (c * q + r) == (b * c) * q + b * r
  {
  }

  /** For `0 <= r < c`, `0 <= b * r <= b * c - b`. */
  lemma MulBelow(b: int, r: int, c: int)
    requires b > 0 && 0 <= r < c
    ensures 0 <= b * r <= b * c - b
  {
    assert b * c - b * r == b * (c - r);
    MulAtLeast(b, c - r);
  }

  /** The quotient and remainder of a Euclidean division are unique. */
  lemma DivUnique(a: int, d: int, q: int, r: int)
    requires d > 0 && a == d * q + r && 0 <= r < d
    ensures a / d == q && a % d == r
  {
    var q', r' := a / d, a % d;
    assert d * q + r == d * q' + r';
    if q > q' {
      assert d * (q - q') == d * q - d * q';
      MulAtLeast(d, q - q');
    } else if q < q' {
      assert d * (q' - q) == d * q' - d * q;
      MulAtLeast(d, q' - q);
    }
  }

  lemma MulAtLeast(d: int, k: int)
    requires d > 0 && k >= 1
    ensures d * k >= d
  {
  }

  /** An integer quotient is below a bound exactly when the dividend is below the bound times the divisor. */
  lemma DivBelow(a: int, d: int, n: int)
    requires d > 0
    ensures a / d < n <==> a < n * d
  {
    var q, r := a / d, a % d;
    assert a == d * q + r;
    if q < n {
      assert d * q <= d * (n - 1);
    } else {
      assert d * q >= d * n;
    }
  }

  /**
   * `formatDistanceToNow` picks the first bucket that fits: "just now" under
   * a minute, then minutes under an hour, hours under a day, days under 30
   * days, 30-day months under 12 of them, and years otherwise; the number
   * shown is at least 1 and is the elapsed time in that unit rounded down.
   */
  lemma {:induction false} DistanceBuckets(s: int)
    ensures DistanceBucket(s).JustNow? <==> s < 60
    ensures DistanceBucket(s).Ago? && DistanceBucket(s).unit == Minute <==> 60 <= s < 3600
    ensures DistanceBucket(s).Ago? && DistanceBucket(s).unit == Hour <==> 3600 <= s < 86400
    ensures DistanceBucket(s).Ago? && DistanceBucket(s).unit == Day <==> 86400 <= s < 2592000
    ensures DistanceBucket(s).Ago? && DistanceBucket(s).unit == Month <==> 2592000 <= s < 31104000
    ensures DistanceBucket(s).Ago? && DistanceBucket(s).unit == Year <==> 31104000 <= s
    ensures DistanceBucket(s).Ago? ==>
              DistanceBucket(s).count >= 1 && DistanceBucket(s).count == s / SecondsPerUnit(DistanceBucket(s).unit)
  {
    if s >= 60 {
      DivBelow(s, 60, 60);
      DivDiv(s, 60, 60);
      DivBelow(s, 3600, 24);
      DivDiv(s, 3600, 24);
      DivBelow(s, 86400, 30);
      DivDiv(s, 86400, 30);
      DivBelow(s, 2592000, 12);
      DivDiv(s, 2592000, 12);
      DivBelow(s, 60, 1);
      DivBelow(s, 3600, 1);
      DivBelow(s, 86400, 1);
      DivBelow(s, 2592000, 1);
      DivBelow(s, 31104000, 1);
    }
  }

  function UnitName(u: TimeUnit): string
  {
    match u
    case Minute => "minute"
    case Hour => "hour"
    case Day => "day"
    case Month => "month"
    case Year => "year"
  }

  /** The unit word: singular exactly when the number is 1. */
  function UnitWord(u: TimeUnit, n: int): (r: string)
    ensures r == UnitName(u) <==> n == 1
    ensures r == UnitName(u) || r == UnitName(u) + "s"
  {
    if n == 1 then UnitName(u) else UnitName(u) + "s"
  }

  /** The number a string of decimal digits denotes, most significant digit first. */
  function DigitValue(s: string): int
  {
    if s == [] then 0 else 10 * DigitValue(s[..|s| - 1]) + (s[|s| - 1] as int - '0' as int)
  }

  /** Decimal digits of a natural number: they denote the number, with no leading zero. */
  function NatToString(n: nat): (r: string)
    ensures |r| >= 1
    ensures forall i :: 0 <= i < |r| ==> '0' <= r[i] <= '9'
    ensures DigitValue(r) == n
    ensures r[0] == '0' <==> n == 0
  {
    var d := ['0', '1', '2', '3', '4', '5', '6', '7', '8', '9'][n % 10];
    assert d as int - '0' as int == n % 10;
    if n < 10 then [d]
    else
      var prefix := NatToString(n / 10);
      assert (prefix + [d])[..|prefix|] == prefix;
      prefix + [d]
  }

  function IntToString(n: int): string
  {
    if n < 0 then "-" + NatToString(-n) else NatToString(n)
  }

  function Render(d: Distance): string
  {
    match d
    case JustNow => "just now"
    case Ago(n, u) => IntToString(n) + " " + UnitWord(u, n) + " ago"
  }

  /** `formatDistanceToNow(date)` with the clock read as `now`. */
  function FormatDistanceToNow(dateMs: int, nowMs: int): (r: string)
    ensures r == "just now" <==> (nowMs - dateMs) / 1000 < 60
  {
    var d := DistanceBucket((nowMs - dateMs) / 1000);
    DistanceBuckets((nowMs - dateMs) / 1000);
    var r := Render(d);
    assert d.Ago? ==> r[|r| - 1] == 'o';
    r
  }

  // ---------------------------------------------------------------- getTimeRemaining

  datatype TimeRemaining = TimeRemaining(total: int, days: int, hours: int, minutes: int, seconds: int)

  /** JavaScript's `Math.trunc`. */
  function Trunc(x: real): int
  {
    if x >= 0.0 then x.Floor else -((-x).Floor)
  }

  /** JavaScript's `%` on numbers: the remainder of a division truncated toward zero. */
  function JsRem(x: real, m: real): real
    requires m != 0.0
  {
    x - m * (Trunc(x / m) as real)
  }

  /**
   * `getTimeRemaining(endDate)` with the clock read as `now`: all zeros once
   * the deadline has passed; before it, the divisions and remainders, taken
   * on exact reals with JavaScript's truncating `%`, come out as the whole
   * days left and the hours, minutes and seconds left over, computed on
   * integers.
   */
  function GetTimeRemaining(endMs: int, nowMs: int): (r: TimeRemaining)
    ensures endMs - nowMs <= 0 ==> r == TimeRemaining(0, 0, 0, 0, 0)
    ensures endMs - nowMs > 0 ==>
              var s := (endMs - nowMs) / 1000;
              r.total == endMs - nowMs && r.days == s / 86400 && r.hours == (s / 3600) % 24
              && r.minutes == (s / 60) % 60 && r.seconds == s % 60
  {
    var total := endMs - nowMs;
    if total <= 0 then TimeRemaining(0, 0, 0, 0, 0)
    else
      SecondsField(total);
      MinutesField(total);
      HoursField(total);
      DaysField(total);
      var t := total as real;
      TimeRemaining(
        total,
        (t / 86400000.0).Floor,
        JsRem(t / 3600000.0, 24.0).Floor,
        JsRem(t / 1000.0 / 60.0, 60.0).Floor,
        JsRem(t / 1000.0, 60.0).Floor)
  }

  /** Rounding down a real quotient of integers is integer floor division. */
  lemma FloorOfQuotient(a: int, d: int)
    requires d > 0
    ensures (a as real / d as real).Floor == a / d
  {
    var q, r := a / d, a % d;
    assert a as real == (d as real) * (q as real) + r as real;
    assert a as real / d as real == q as real + (r as real) / (d as real);
    assert 0.0 <= (r as real) / (d as real) < 1.0;
  }

  /** For a non-negative count of `unit`s, `Math.floor((a / unit) % m)` is `(a div unit) mod m`. */
  lemma FloorRem(a: int, unit: int, m: int)
    requires a >= 0 && unit > 0 && m > 0
    ensures JsRem(a as real / unit as real, m as real).Floor == (a / unit) % m
  {
    var x := a as real / unit as real;
    assert x / (m as real) == a as real / (unit * m) as real by {
      assert (unit * m) as real == (unit as real) * (m as real);
    }
    FloorOfQuotient(a, unit * m);
    DivDiv(a, unit, m);
    assert x / (m as real) >= 0.0;
    var k := (a / unit) / m;
    assert Trunc(x / m as real) == k;
    FloorOfQuotient(a, unit);
    assert (x - (m * k) as real).Floor == x.Floor - m * k;
    assert (a / unit) % m == a / unit - m * k;
  }

  /** The countdown's seconds are the whole seconds left modulo 60. */
  lemma SecondsField(total: int)
    requires total > 0
    ensures JsRem(total as real / 1000.0, 60.0).Floor == (total / 1000) % 60
  {
    FloorRem(total, 1000, 60);
  }

  /** The countdown's minutes are the whole minutes left modulo 60. */
  lemma MinutesField(total: int)
    requires total > 0
    ensures JsRem(total as real / 1000.0 / 60.0, 60.0).Floor == ((total / 1000) / 60) % 60
  {
    assert total as real / 1000.0 / 60.0 == total as real / 60000.0;
    FloorRem(total, 60000, 60);
    DivDiv(total, 1000, 60);
  }

  /** The countdown's hours are the whole hours left modulo 24. */
  lemma HoursField(total: int)
    requires total > 0
    ensures JsRem(total as real / 3600000.0, 24.0).Floor == ((total / 1000) / 3600) % 24
  {
    FloorRem(total, 3600000, 24);
    DivDiv(total, 1000, 3600);
  }

  /** The countdown's days are the whole days left. */
  lemma DaysField(total: int)
    requires total > 0
    ensures (total as real / 86400000.0).Floor == (total / 1000) / 86400
  {
    FloorOfQuotient(total, 86400000);
    DivDiv(total, 1000, 86400);
  }

  /** Whole seconds split into days, hours, minutes and seconds, each in range, add back up to the seconds. */
  lemma SecondsDecompose(s: int)
    requires s >= 0
    ensures 0 <= s % 60 < 60 && 0 <= (s / 60) % 60 < 60 && 0 <= (s / 3600) % 24 < 24 && s / 86400 >= 0
    ensures (s / 86400) * 86400 + ((s / 3600) % 24) * 3600 + ((s / 60) % 60) * 60 + s % 60 == s
  {
    DivDiv(s, 60, 60);
    DivDiv(s, 3600, 24);
    var d, h, m, sec := s / 86400, (s / 3600) % 24, (s / 60) % 60, s % 60;
    assert s / 3600 == 24 * d + h;
    assert s / 60 == 60 * (s / 3600) + m;
    assert s == 60 * (s / 60) + sec;
    assert s == 60 * (60 * (24 * d + h) + m) + sec;
  }

  /**
   * Past the deadline the countdown is all zeros; before it, seconds and
   * minutes lie in [0, 59], hours in [0, 23], days are non-negative, and
   * together they make up the whole seconds left.
   */
  lemma TimeRemainingParts(endMs: int, nowMs: int)
    ensures var r := GetTimeRemaining(endMs, nowMs);
            endMs - nowMs <= 0 ==> r == TimeRemaining(0, 0, 0, 0, 0)
    ensures var r := GetTimeRemaining(endMs, nowMs);
            endMs - nowMs > 0 ==>
              r.total == endMs - nowMs
              && 0 <= r.seconds < 60 && 0 <= r.minutes < 60 && 0 <= r.hours < 24 && r.days >= 0
              && r.days * 86400 + r.hours * 3600 + r.minutes * 60 + r.seconds == r.total / 1000
  {
    var total := endMs - nowMs;
    if total > 0 {
      SecondsDecompose(total / 1000);
    }
  }

  // ---------------------------------------------------------------- isPast / isFuture

  function IsPast(dateMs: int, nowMs: int): (r: bool)
    ensures r ==> !IsFuture(dateMs, nowMs)
  {
    dateMs < nowMs
  }

  /** A date is in the future exactly when a countdown to it still has time left. */
  function IsFuture(dateMs: int, nowMs: int): (r: bool)
    ensures r <==> GetTimeRemaining(dateMs, nowMs).total > 0
    ensures !r ==> GetTimeRemaining(dateMs, nowMs) == TimeRemaining(0, 0, 0, 0, 0)
  {
    dateMs > nowMs
  }

  /** A date is neither past nor future exactly when it is now. */
  lemma PastFutureExclusive(dateMs: int, nowMs: int)
    ensures !(IsPast(dateMs, nowMs) && IsFuture(dateMs, nowMs))
    ensures !IsPast(dateMs, nowMs) && !IsFuture(dateMs, nowMs) <==> dateMs == nowMs
  {
  }
}
