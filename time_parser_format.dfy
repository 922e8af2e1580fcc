/**
 * What format writes, as counted unit words, and what parseTemporalAmount
 * makes of it again: the round trips between the two, and the amounts on
 * which format loses information.
 */
module TimeParserFormat {
  import opened Wrappers
  import opened JavaText
  import opened TimeParser
  import opened TimeParserText

  // ---- format's text as pieces ----

  /** A count written with the singular word for 1 and the plural for more; nothing for 0 or less. */
  function CountPieces(n: int, one: string, many: string): (ps: seq<Piece>)
    ensures |ps| <= 1
  {
    if n <= 0 then [] else [Piece(n, if n == 1 then one else many)]
  }

  /** A count followed by a space, as format appends every unit but the last. */
  lemma PartSpaced(n: int, one: string, many: string)
    ensures Part(n, "1 " + one + " ", " " + many + " ") == Spaced(CountPieces(n, one, many))
  {
    if n == 1 {
      assert NatToString(1) == "1";
    } else if n > 1 {
      assert IntToString(n) + (" " + many + " ") == NatToString(n) + " " + many + " " + "";
    }
  }

  /** A count with nothing after it, as format appends the last unit. */
  lemma PartJoined(n: int, one: string, many: string)
    ensures Part(n, "1 " + one, " " + many) == Joined(CountPieces(n, one, many))
  {
    if n == 1 {
      assert NatToString(1) == "1";
    } else if n > 1 {
      assert IntToString(n) + (" " + many) == NatToString(n) + " " + many;
    }
  }

  lemma {:induction false} SpacedAppend(a: seq<Piece>, b: seq<Piece>)
    ensures Spaced(a + b) == Spaced(a) + Spaced(b)
    decreases |a|
  {
    if a == [] {
      assert a + b == b;
    } else {
      assert (a + b)[0] == a[0] && (a + b)[1..] == a[1..] + b;
      SpacedAppend(a[1..], b);
    }
  }

  lemma {:induction false} SpacedJoined(a: seq<Piece>, b: seq<Piece>)
    requires b != []
    ensures Spaced(a) + Joined(b) == Joined(a + b)
    decreases |a|
  {
    if a == [] {
      assert a + b == b;
    } else {
      assert (a + b)[0] == a[0] && (a + b)[1..] == a[1..] + b;
      SpacedJoined(a[1..], b);
    }
  }

  lemma {:induction false} SpacedIsJoined(a: seq<Piece>)
    requires a != []
    ensures Spaced(a) == Joined(a) + " "
    decreases |a|
  {
    if |a| > 1 {
      SpacedIsJoined(a[1..]);
    }
  }

  /** Text starting with a digit and ending with a letter is its own trim, also with a space after it. */
  lemma TrimWritten(x: string)
    requires |x| > 0 && IsDigit(x[0]) && 'a' <= x[|x| - 1] <= 'z'
    ensures Trim(x) == x && Trim(x + " ") == x
  {
    var s := x + " ";
    assert s[0] == x[0] && s[|s| - 1] == ' ' && s[..|s| - 1] == x;
  }

  lemma PlainAppend(a: seq<Piece>, b: seq<Piece>)
    requires Plain(a) && Plain(b)
    ensures Plain(a + b)
  {
    forall i | 0 <= i < |a + b| ensures (a + b)[i].word != [] && IsLowerWord((a + b)[i].word) {
      if i >= |a| {
        assert (a + b)[i] == b[i - |a|];
      }
    }
  }

  lemma WritableAppend(a: seq<Piece>, b: seq<Piece>)
    requires Writable(a) && Writable(b)
    ensures Writable(a + b)
  {
    PlainAppend(a, b);
    forall i | 0 <= i < |a + b| ensures OwnUnit((a + b)[i].word) && (a + b)[i].count <= INT_MAX {
      if i >= |a| {
        assert (a + b)[i] == b[i - |a|];
      }
    }
  }

  lemma CountPiecesWritable(n: int, one: string, many: string)
    requires OwnUnit(one) && OwnUnit(many) && n <= INT_MAX
    ensures Writable(CountPieces(n, one, many))
  {
  }

  /**
   * Spaced pieces and at most one last piece, trimmed as format does: the
   * pieces separated by single spaces.
   */
  lemma TrimSpacedJoined(a: seq<Piece>, b: seq<Piece>)
    requires Plain(a) && Plain(b) && |b| <= 1
    ensures Trim(Spaced(a) + Joined(b)) == Joined(a + b)
  {
    PlainAppend(a, b);
    if b != [] {
      SpacedJoined(a, b);
      JoinedEnds(a + b);
      TrimWritten(Joined(a + b));
    } else {
      assert a + b == a;
      if a != [] {
        SpacedIsJoined(a);
        JoinedEnds(a);
        TrimWritten(Joined(a));
      }
    }
  }

  /** What one count contributes to the sums over pieces. */
  lemma CountPiecesSums(n: int, one: string, many: string, u: ChronoUnit, prior: int)
    requires n >= 0 && UnitOf(one) == Some(u) && UnitOf(many) == Some(u)
    ensures forall x :: PieceTotal(CountPieces(n, one, many), x) == if x == u then n else 0
    ensures PieceLastYears(CountPieces(n, one, many), prior) == if u == Years && n > 0 then n else prior
    ensures PieceCalendar(CountPieces(n, one, many)) <==> n > 0 && IsCalendarUnit(u)
    ensures PieceNanos(CountPieces(n, one, many)) == NanosIn(n, u)
  {
  }

  // ---- Period ----

  /** The pieces format writes for a Period. */
  function PeriodPieces(y: int, m: int, d: int): seq<Piece> {
    CountPieces(y, "year", "years") + CountPieces(m, "month", "months") + CountPieces(d, "day", "days")
  }

  lemma PeriodWordsPlain(y: int, m: int, d: int)
    ensures Plain(CountPieces(y, "year", "years") + CountPieces(m, "month", "months")) && Plain(CountPieces(d, "day", "days"))
    ensures Plain(PeriodPieces(y, m, d))
  {
    PlainAppend(CountPieces(y, "year", "years"), CountPieces(m, "month", "months"));
    PlainAppend(CountPieces(y, "year", "years") + CountPieces(m, "month", "months"), CountPieces(d, "day", "days"));
  }

  /** The text format builds for a Period, as spaced pieces and a last piece. */
  lemma PeriodTextPieces(y: int, m: int, d: int)
    ensures PeriodText(y, m, d) ==
      Spaced(CountPieces(y, "year", "years") + CountPieces(m, "month", "months")) + Joined(CountPieces(d, "day", "days"))
  {
    assert "1 year " == "1 " + "year" + " " && " years " == " " + "years" + " ";
    assert "1 month " == "1 " + "month" + " " && " months " == " " + "months" + " ";
    assert "1 day" == "1 " + "day" && " days" == " " + "days";
    PartSpaced(y, "year", "years");
    PartSpaced(m, "month", "months");
    PartJoined(d, "day", "days");
    SpacedAppend(CountPieces(y, "year", "years"), CountPieces(m, "month", "months"));
  }

  /** format of a non-zero Period writes its positive counts, largest unit first, separated by single spaces. */
  lemma FormatPeriodPieces(y: int, m: int, d: int)
    requires !(y == 0 && m == 0 && d == 0)
    ensures FormatSpec(Period(y, m, d)) == Joined(PeriodPieces(y, m, d))
  {
    PeriodTextPieces(y, m, d);
    PeriodWordsPlain(y, m, d);
    TrimSpacedJoined(CountPieces(y, "year", "years") + CountPieces(m, "month", "months"), CountPieces(d, "day", "days"));
  }

  /** What the pieces of a Period with counts of zero or more amount to. */
  lemma PeriodPiecesAmount(y: nat, m: nat, d: nat)
    ensures PiecesAmount(PeriodPieces(y, m, d)) ==
      if y > 0 || m > 0 then Period(y, m, d) else Duration(NanosIn(d, Days))
  {
    var ys := CountPieces(y, "year", "years");
    var ms := CountPieces(m, "month", "months");
    var ds := CountPieces(d, "day", "days");
    CountPiecesSums(y, "year", "years", Years, 0);
    CountPiecesSums(m, "month", "months", Months, PieceLastYears(ys, 0));
    CountPiecesSums(d, "day", "days", Days, PieceLastYears(ms, PieceLastYears(ys, 0)));
    PiecesAppend(ys, ms, 0);
    PiecesAppend(ys + ms, ds, 0);
  }

  lemma PeriodPiecesWritable(y: int, m: int, d: int)
    requires y <= INT_MAX && m <= INT_MAX && d <= INT_MAX
    ensures Writable(PeriodPieces(y, m, d))
  {
    OwnUnitYear();
    OwnUnitYears();
    OwnUnitMonth();
    OwnUnitMonths();
    OwnUnitDay();
    OwnUnitDays();
    CountPiecesWritable(y, "year", "years");
    CountPiecesWritable(m, "month", "months");
    CountPiecesWritable(d, "day", "days");
    WritableAppend(CountPieces(y, "year", "years"), CountPieces(m, "month", "months"));
    WritableAppend(CountPieces(y, "year", "years") + CountPieces(m, "month", "months"), CountPieces(d, "day", "days"));
  }

  /** Counts of a Period within int range keep every unit's sum of its pieces within it. */
  lemma PeriodPiecesWithinInt(y: nat, m: nat, d: nat)
    requires y <= INT_MAX && m <= INT_MAX && d <= INT_MAX
    ensures WithinInt(PeriodPieces(y, m, d))
  {
    var ys := CountPieces(y, "year", "years");
    var ms := CountPieces(m, "month", "months");
    var ds := CountPieces(d, "day", "days");
    CountPiecesSums(y, "year", "years", Years, 0);
    CountPiecesSums(m, "month", "months", Months, 0);
    CountPiecesSums(d, "day", "days", Days, 0);
    PiecesAppend(ys, ms, 0);
    PiecesAppend(ys + ms, ds, 0);
  }

  /**
   * A Period with years or months, each count within int range, survives
   * format and parseTemporalAmount unchanged.
   */
  lemma PeriodRoundTrip(y: nat, m: nat, d: nat)
    requires y <= INT_MAX && m <= INT_MAX && d <= INT_MAX && (y > 0 || m > 0)
    ensures ParseSpec(FormatSpec(Period(y, m, d))) == Ok(Period(y, m, d))
  {
    FormatPeriodPieces(y, m, d);
    PeriodPiecesWritable(y, m, d);
    PeriodPiecesAmount(y, m, d);
    PeriodPiecesWithinInt(y, m, d);
    ParseJoined(PeriodPieces(y, m, d));
  }

  /** A Period of days alone comes back as a Duration of as many days. */
  lemma DaysRoundTrip(d: nat)
    requires 0 < d <= INT_MAX
    ensures ParseSpec(FormatSpec(Period(0, 0, d))) == Ok(Duration(NanosIn(d, Days)))
  {
    FormatPeriodPieces(0, 0, d);
    PeriodPiecesWritable(0, 0, d);
    PeriodPiecesAmount(0, 0, d);
    PeriodPiecesWithinInt(0, 0, d);
    ParseJoined(PeriodPieces(0, 0, d));
  }

  /** A zero amount is written "now", which reads back as a zero Duration. */
  lemma ZeroRoundTrip()
    ensures FormatSpec(Period(0, 0, 0)) == NOW && FormatSpec(Duration(0)) == NOW
    ensures ParseSpec(NOW) == Ok(Duration(0))
  {
  }

  // ---- Duration ----

  /** The pieces format writes for a clock: days, hours, minutes and seconds. */
  function ClockPieces(c: Clock): seq<Piece> {
    CountPieces(c.days, "day", "days") + CountPieces(c.hours, "hour", "hours")
    + CountPieces(c.minutes, "minute", "minutes") + CountPieces(c.seconds, "second", "seconds")
  }

  /** The pieces format writes for a Duration: its clock, then the milliseconds. */
  function DurationPieces(c: Clock, ms: int): seq<Piece> {
    ClockPieces(c) + CountPieces(ms, "ms", "ms")
  }

  lemma ClockSpaced(c: Clock)
    ensures Part(c.days, "1 day ", " days ") + Part(c.hours, "1 hour ", " hours ")
      + Part(c.minutes, "1 minute ", " minutes ") + Part(c.seconds, "1 second ", " seconds ") == Spaced(ClockPieces(c))
  {
    assert "1 day " == "1 " + "day" + " " && " days " == " " + "days" + " ";
    assert "1 hour " == "1 " + "hour" + " " && " hours " == " " + "hours" + " ";
    assert "1 minute " == "1 " + "minute" + " " && " minutes " == " " + "minutes" + " ";
    assert "1 second " == "1 " + "second" + " " && " seconds " == " " + "seconds" + " ";
    var ds := CountPieces(c.days, "day", "days");
    var hs := CountPieces(c.hours, "hour", "hours");
    var ms := CountPieces(c.minutes, "minute", "minutes");
    var ss := CountPieces(c.seconds, "second", "seconds");
    PartSpaced(c.days, "day", "days");
    PartSpaced(c.hours, "hour", "hours");
    PartSpaced(c.minutes, "minute", "minutes");
    PartSpaced(c.seconds, "second", "seconds");
    SpacedAppend(ds, hs);
    SpacedAppend(ds + hs, ms);
    SpacedAppend(ds + hs + ms, ss);
  }

  lemma MillisJoined(ms: int)
    ensures (if ms > 0 then IntToString(ms) + " ms" else "") == Joined(CountPieces(ms, "ms", "ms"))
  {
    if ms == 1 {
      assert NatToString(1) == "1";
    }
    if ms > 0 {
      assert IntToString(ms) + " ms" == NatToString(ms) + " " + "ms";
    }
  }

  lemma DurationWordsPlain(c: Clock, ms: int)
    ensures Plain(ClockPieces(c)) && Plain(CountPieces(ms, "ms", "ms"))
  {
    var ds := CountPieces(c.days, "day", "days");
    var hs := CountPieces(c.hours, "hour", "hours");
    var mn := CountPieces(c.minutes, "minute", "minutes");
    var ss := CountPieces(c.seconds, "second", "seconds");
    PlainAppend(ds, hs);
    PlainAppend(ds + hs, mn);
    PlainAppend(ds + hs + mn, ss);
  }

  /** The text of a clock and a millisecond count, trimmed: the pieces separated by single spaces. */
  lemma ClockTextPieces(c: Clock, ms: int)
    ensures Trim(ClockText(c, ms)) == Joined(DurationPieces(c, ms))
  {
    ClockSpaced(c);
    MillisJoined(ms);
    DurationWordsPlain(c, ms);
    TrimSpacedJoined(ClockPieces(c), CountPieces(ms, "ms", "ms"));
  }

  /** format of a Duration with whole seconds writes its clock and milliseconds as pieces. */
  lemma FormatDurationPieces(nanos: int)
    requires SecondsOf(nanos) != 0
    ensures FormatSpec(Duration(nanos)) == Joined(DurationPieces(ClockAsWritten(SecondsOf(nanos)), MillisOf(nanos)))
  {
    ClockTextPieces(ClockAsWritten(SecondsOf(nanos)), MillisOf(nanos));
  }

  /** The two sums a Duration depends on, for pieces below weeks written one after another. */
  lemma NanosAppend(a: seq<Piece>, b: seq<Piece>)
    ensures PieceCalendar(a + b) <==> PieceCalendar(a) || PieceCalendar(b)
    ensures PieceNanos(a + b) == PieceNanos(a) + PieceNanos(b)
  {
    PiecesAppend(a, b, 0);
  }

  /** A count below weeks written as a piece is no calendar unit and adds its nanoseconds. */
  lemma CountNanos(n: int, one: string, many: string, u: ChronoUnit)
    requires n >= 0 && UnitOf(one) == Some(u) && UnitOf(many) == Some(u) && !IsCalendarUnit(u)
    ensures !PieceCalendar(CountPieces(n, one, many)) && PieceNanos(CountPieces(n, one, many)) == NanosIn(n, u)
  {
    CountPiecesSums(n, one, many, u, 0);
  }

  /** A clock's pieces are below weeks and add up to its days, hours, minutes and seconds. */
  lemma ClockPiecesNanos(c: Clock)
    requires c.days >= 0 && c.hours >= 0 && c.minutes >= 0 && c.seconds >= 0
    ensures !PieceCalendar(ClockPieces(c))
    ensures PieceNanos(ClockPieces(c)) ==
      NanosIn(c.days, Days) + NanosIn(c.hours, Hours) + NanosIn(c.minutes, Minutes) + NanosIn(c.seconds, Seconds)
  {
    var ds := CountPieces(c.days, "day", "days");
    var hs := CountPieces(c.hours, "hour", "hours");
    var mn := CountPieces(c.minutes, "minute", "minutes");
    var ss := CountPieces(c.seconds, "second", "seconds");
    CountNanos(c.days, "day", "days", Days);
    CountNanos(c.hours, "hour", "hours", Hours);
    CountNanos(c.minutes, "minute", "minutes", Minutes);
    CountNanos(c.seconds, "second", "seconds", Seconds);
    NanosAppend(ds, hs);
    NanosAppend(ds + hs, mn);
    NanosAppend(ds + hs + mn, ss);
  }

  /** What the pieces of a clock and a millisecond count, all zero or more, amount to. */
  lemma DurationPiecesAmount(c: Clock, ms: int)
    requires c.days >= 0 && c.hours >= 0 && c.minutes >= 0 && c.seconds >= 0 && ms >= 0
    ensures PiecesAmount(DurationPieces(c, ms)) ==
      Duration(NanosIn(c.days, Days) + NanosIn(c.hours, Hours) + NanosIn(c.minutes, Minutes)
               + NanosIn(c.seconds, Seconds) + NanosIn(ms, Millis))
  {
    ClockPiecesNanos(c);
    CountNanos(ms, "ms", "ms", Millis);
    NanosAppend(ClockPieces(c), CountPieces(ms, "ms", "ms"));
  }

  lemma DurationPiecesWritable(c: Clock, ms: int)
    requires c.days <= INT_MAX && c.hours <= INT_MAX && c.minutes <= INT_MAX && c.seconds <= INT_MAX && ms <= INT_MAX
    ensures Writable(DurationPieces(c, ms))
  {
    OwnUnitDay();
    OwnUnitDays();
    OwnUnitHour();
    OwnUnitHours();
    OwnUnitMinute();
    OwnUnitMinutes();
    OwnUnitSecond();
    OwnUnitSeconds();
    OwnUnitMs();
    var ds := CountPieces(c.days, "day", "days");
    var hs := CountPieces(c.hours, "hour", "hours");
    var mn := CountPieces(c.minutes, "minute", "minutes");
    var ss := CountPieces(c.seconds, "second", "seconds");
    CountPiecesWritable(c.days, "day", "days");
    CountPiecesWritable(c.hours, "hour", "hours");
    CountPiecesWritable(c.minutes, "minute", "minutes");
    CountPiecesWritable(c.seconds, "second", "seconds");
    CountPiecesWritable(ms, "ms", "ms");
    WritableAppend(ds, hs);
    WritableAppend(ds + hs, mn);
    WritableAppend(ds + hs + mn, ss);
    WritableAppend(ds + hs + mn + ss, CountPieces(ms, "ms", "ms"));
  }

  /** A count written as a piece adds to its own unit only. */
  lemma CountTotal(n: int, one: string, many: string, v: ChronoUnit, u: ChronoUnit)
    requires n >= 0 && UnitOf(one) == Some(v) && UnitOf(many) == Some(v)
    ensures PieceTotal(CountPieces(n, one, many), u) == if u == v then n else 0
  {
    CountPiecesSums(n, one, many, v, 0);
  }

  /** Each unit's sum of the pieces of a clock and a millisecond count is that count. */
  lemma DurationPieceTotal(c: Clock, ms: int, u: ChronoUnit)
    requires c.days >= 0 && c.hours >= 0 && c.minutes >= 0 && c.seconds >= 0 && ms >= 0
    ensures PieceTotal(DurationPieces(c, ms), u) ==
      if u == Days then c.days else if u == Hours then c.hours else if u == Minutes then c.minutes
      else if u == Seconds then c.seconds else if u == Millis then ms else 0
  {
    var ds := CountPieces(c.days, "day", "days");
    var hs := CountPieces(c.hours, "hour", "hours");
    var mn := CountPieces(c.minutes, "minute", "minutes");
    var ss := CountPieces(c.seconds, "second", "seconds");
    CountTotal(c.days, "day", "days", Days, u);
    CountTotal(c.hours, "hour", "hours", Hours, u);
    CountTotal(c.minutes, "minute", "minutes", Minutes, u);
    CountTotal(c.seconds, "second", "seconds", Seconds, u);
    CountTotal(ms, "ms", "ms", Millis, u);
    TotalAppend(ds, hs, u);
    TotalAppend(ds + hs, mn, u);
    TotalAppend(ds + hs + mn, ss, u);
    TotalAppend(ds + hs + mn + ss, CountPieces(ms, "ms", "ms"), u);
  }

  /** Clock and millisecond counts within int range keep every unit's sum of their pieces within it. */
  lemma DurationPiecesWithinInt(c: Clock, ms: int)
    requires 0 <= c.days <= INT_MAX && 0 <= c.hours <= INT_MAX && 0 <= c.minutes <= INT_MAX && 0 <= c.seconds <= INT_MAX
    requires 0 <= ms <= INT_MAX
    ensures WithinInt(DurationPieces(c, ms))
  {
    forall u | u != Years
      ensures PieceTotal(DurationPieces(c, ms), u) <= INT_MAX
    {
      DurationPieceTotal(c, ms, u);
    }
    DurationPiecesAmount(c, ms);
  }

  /** The clock text is the Duration's pieces, which format can write and which amount to the Duration. */
  lemma DurationWritten(c: Clock, ms: int, nanos: int)
    requires 0 <= c.days <= INT_MAX && 0 <= c.hours <= INT_MAX && 0 <= c.minutes <= INT_MAX && 0 <= c.seconds <= INT_MAX
    requires 0 <= ms <= INT_MAX && (c.days > 0 || c.hours > 0 || c.minutes > 0 || c.seconds > 0 || ms > 0)
    requires nanos == NanosIn(c.days, Days) + NanosIn(c.hours, Hours) + NanosIn(c.minutes, Minutes)
                      + NanosIn(c.seconds, Seconds) + NanosIn(ms, Millis)
    ensures DurationPieces(c, ms) != [] && Writable(DurationPieces(c, ms))
    ensures Trim(ClockText(c, ms)) == Joined(DurationPieces(c, ms)) && Duration(nanos) == PiecesAmount(DurationPieces(c, ms))
  {
    assert |DurationPieces(c, ms)| ==
      |CountPieces(c.days, "day", "days")| + |CountPieces(c.hours, "hour", "hours")| + |CountPieces(c.minutes, "minute", "minutes")|
      + |CountPieces(c.seconds, "second", "seconds")| + |CountPieces(ms, "ms", "ms")|;
    DurationPiecesAmount(c, ms);
    assert Duration(nanos) == PiecesAmount(DurationPieces(c, ms));
    ClockTextPieces(c, ms);
    DurationPiecesWritable(c, ms);
  }

  /** A clock and a millisecond count, each zero or more and within int range, read back as their total. */
  lemma ClockRoundTrip(c: Clock, ms: int, nanos: int)
    requires 0 <= c.days <= INT_MAX && 0 <= c.hours <= INT_MAX && 0 <= c.minutes <= INT_MAX && 0 <= c.seconds <= INT_MAX
    requires 0 <= ms <= INT_MAX && (c.days > 0 || c.hours > 0 || c.minutes > 0 || c.seconds > 0 || ms > 0)
    requires nanos == NanosIn(c.days, Days) + NanosIn(c.hours, Hours) + NanosIn(c.minutes, Minutes)
                      + NanosIn(c.seconds, Seconds) + NanosIn(ms, Millis)
    ensures ParseSpec(Trim(ClockText(c, ms))) == Ok(Duration(nanos))
  {
    DurationWritten(c, ms, nanos);
    DurationPiecesWithinInt(c, ms);
    ParseJoined(DurationPieces(c, ms));
  }

  /** The clock format means to write: whole days, then the hours, minutes and seconds within them. */
  function IntendedClock(secs: nat): Clock {
    Clock(secs / 86400, secs % 86400 / 3600, secs % 3600 / 60, secs % 60)
  }

  /** Taking a unit out of a remainder: the count and what is left add back up to it. */
  lemma DivModParts(x: nat, unit: nat)
    requires unit > 0
    ensures x == x / unit * unit + x % unit && 0 <= x % unit < unit && x / unit >= 0
  {
  }

  /** Within a day, the seconds left over once hours are taken are those left in the hour. */
  lemma DayRemainder(secs: nat)
    ensures secs % 86400 % 3600 == secs % 3600 && secs % 86400 / 3600 < 24
  {
  }

  /** Within an hour, the seconds left over once minutes are taken are those left in the minute. */
  lemma HourRemainder(secs: nat)
    ensures secs % 3600 % 60 == secs % 60 && secs % 3600 / 60 < 60
  {
  }

  /** The clock adds up to the seconds it was taken from. */
  lemma IntendedClockTotal(secs: nat)
    ensures var c := IntendedClock(secs);
      c.days * 86400 + c.hours * 3600 + c.minutes * 60 + c.seconds == secs
      && 0 <= c.hours < 24 && 0 <= c.minutes < 60 && 0 <= c.seconds < 60
  {
    var r := secs % 86400;
    DivModParts(secs, 86400);
    DivModParts(r, 3600);
    DayRemainder(secs);
    var r2 := secs % 3600;
    DivModParts(r2, 60);
    HourRemainder(secs);
  }

  /** A clock's total in nanoseconds, as the sum of its units. */
  lemma ClockNanos(c: Clock, secs: int, ms: int)
    requires c.days * 86400 + c.hours * 3600 + c.minutes * 60 + c.seconds == secs
    ensures NanosIn(c.days, Days) + NanosIn(c.hours, Hours) + NanosIn(c.minutes, Minutes)
            + NanosIn(c.seconds, Seconds) + NanosIn(ms, Millis) == secs * NANOS_PER_SECOND + ms * NANOS_PER_MILLI
  {
  }

  /** When the count and its product fit in an int, taking a unit is plain division and remainder. */
  lemma TakeUnitExact(secs: nat, unit: nat)
    requires unit > 0 && secs / unit * unit <= INT_MAX
    ensures TakeUnit(secs, unit) == (secs / unit, secs % unit)
  {
    DivModParts(secs, unit);
    assert secs / unit <= secs / unit * unit;
  }

  /** Below 24856 days, format's int arithmetic takes the clock apart as intended. */
  lemma ClockExact(secs: int)
    requires 0 <= secs < 24856 * 86400
    ensures ClockAsWritten(secs) == IntendedClock(secs)
  {
    assert secs / 86400 <= 24855;
    TakeUnitExact(secs, 86400);
    TakeUnitExact(secs % 86400, 3600);
    DayRemainder(secs);
    TakeUnitExact(secs % 3600, 60);
    HourRemainder(secs);
  }

  /** A Duration in whole seconds and milliseconds. */
  lemma NanosSplit(nanos: nat)
    requires nanos % NANOS_PER_MILLI == 0
    ensures nanos == SecondsOf(nanos) * NANOS_PER_SECOND + MillisOf(nanos) * NANOS_PER_MILLI
    ensures 0 <= MillisOf(nanos) < 1000
  {
  }

  /** The text format evidently means to write for whole seconds and milliseconds: "now" only when both are zero. */
  function IntendedText(secs: nat, ms: nat): string {
    if secs == 0 && ms == 0 then NOW else Trim(ClockText(IntendedClock(secs), ms))
  }

  /** format of a Duration as evidently intended: "now" only when there is nothing to write, and no int overflow. */
  function IntendedFormatDuration(nanos: nat): string {
    IntendedText(SecondsOf(nanos), MillisOf(nanos))
  }

  /** The intended clock of whole seconds fits in ints and adds up, with the milliseconds, to their total. */
  lemma IntendedClockFits(secs: nat, ms: nat, nanos: int)
    requires ms < 1000 && secs / 86400 <= INT_MAX && nanos == secs * NANOS_PER_SECOND + ms * NANOS_PER_MILLI
    requires secs > 0 || ms > 0
    ensures var c := IntendedClock(secs);
      0 <= c.days <= INT_MAX && 0 <= c.hours <= INT_MAX && 0 <= c.minutes <= INT_MAX && 0 <= c.seconds <= INT_MAX
      && (c.days > 0 || c.hours > 0 || c.minutes > 0 || c.seconds > 0 || ms > 0)
      && nanos == NanosIn(c.days, Days) + NanosIn(c.hours, Hours) + NanosIn(c.minutes, Minutes)
                  + NanosIn(c.seconds, Seconds) + NanosIn(ms, Millis)
  {
    var c := IntendedClock(secs);
    IntendedClockTotal(secs);
    ClockNanos(c, secs, ms);
  }

  /** Some whole seconds or milliseconds, written with the intended clock, read back as their total. */
  lemma {:induction false} ClockedRoundTrip(secs: nat, ms: nat, nanos: int)
    requires ms < 1000 && secs / 86400 <= INT_MAX && nanos == secs * NANOS_PER_SECOND + ms * NANOS_PER_MILLI
    requires secs > 0 || ms > 0
    ensures ParseSpec(Trim(ClockText(IntendedClock(secs), ms))) == Ok(Duration(nanos))
  {
    IntendedClockFits(secs, ms, nanos);
    ClockRoundTrip(IntendedClock(secs), ms, nanos);
  }

  /** Whole seconds and milliseconds, written as intended, read back as their total. */
  lemma {:induction false} IntendedTextRoundTrip(secs: nat, ms: nat, nanos: int)
    requires ms < 1000 && secs / 86400 <= INT_MAX && nanos == secs * NANOS_PER_SECOND + ms * NANOS_PER_MILLI
    ensures ParseSpec(IntendedText(secs, ms)) == Ok(Duration(nanos))
  {
    if secs == 0 && ms == 0 {
      ZeroRoundTrip();
    } else {
      ClockedRoundTrip(secs, ms, nanos);
    }
  }

  /**
   * Every non-negative Duration of whole milliseconds with at most
   * Integer.MAX_VALUE days survives the intended format and
   * parseTemporalAmount unchanged.
   */
  lemma {:induction false} IntendedDurationRoundTrip(nanos: nat)
    requires nanos % NANOS_PER_MILLI == 0 && SecondsOf(nanos) / 86400 <= INT_MAX
    ensures ParseSpec(IntendedFormatDuration(nanos)) == Ok(Duration(nanos))
  {
    NanosSplit(nanos);
    IntendedTextRoundTrip(SecondsOf(nanos), MillisOf(nanos), nanos);
  }

  /** Where format does not overflow and has whole seconds to write, it writes what was intended. */
  lemma IntendedAgrees(nanos: nat)
    requires NANOS_PER_SECOND <= nanos < 24856 * 86400 * NANOS_PER_SECOND
    ensures FormatSpec(Duration(nanos)) == IntendedFormatDuration(nanos)
  {
    ClockExact(SecondsOf(nanos));
  }

  /**
   * A Duration of at least a second and below 24856 days, in whole
   * milliseconds, survives format and parseTemporalAmount unchanged.
   */
  lemma DurationRoundTrip(nanos: nat)
    requires NANOS_PER_SECOND <= nanos < 24856 * 86400 * NANOS_PER_SECOND && nanos % NANOS_PER_MILLI == 0
    ensures ParseSpec(FormatSpec(Duration(nanos))) == Ok(Duration(nanos))
  {
    IntendedAgrees(nanos);
    IntendedDurationRoundTrip(nanos);
  }

  /** Half a second has no whole seconds, so format writes "now", which reads back as zero. */
  lemma SubSecondWrittenNow()
    ensures FormatSpec(Duration(500 * NANOS_PER_MILLI)) == NOW
    ensures ParseSpec(FormatSpec(Duration(500 * NANOS_PER_MILLI))) == Ok(Duration(0))
  {
  }

  /**
   * At 24856 days, p * 86400 overflows int and so do the products after it:
   * format writes 1193046 hours, 71582816 minutes and 4294967328 seconds
   * on top of the days, where none are left.
   */
  lemma OverflowAtDays()
    ensures ClockAsWritten(24856 * 86400) == Clock(24856, 1193046, 71582816, 4294967328)
    ensures IntendedClock(24856 * 86400) == Clock(24856, 0, 0, 0)
  {
    assert TakeUnit(24856 * 86400, 86400) == (24856, 0x1_0000_0000);
    assert TakeUnit(0x1_0000_0000, 3600) == (1193046, 0x1_0000_0000 + 1696);
    assert TakeUnit(0x1_0000_0000 + 1696, 60) == (71582816, 4294967328);
  }
}
