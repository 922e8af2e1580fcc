/**
 * parseTemporalAmount on texts of whole counts and unit words, and the
 * reading of the unit group's alternatives: "millis" falls under the
 * startsWith("mi") branch and is read as minutes.
 */
module TimeParserExamples {
  import opened Wrappers
  import opened JavaText
  import opened TimeParser
  import opened TimeParserProps
  import opened TimeParserText

  /** A month triggers the Period, which keeps years, months and days: a week adds seven days, minutes and seconds are dropped. */
  lemma MonthWeekDaysMinutesSeconds(t: string)
    requires t == "1 month 1 weeks 3 days 20 mins 10 sec"
    ensures ParseSpec(t) == Ok(Period(0, 1, 10))
  {
    var ps := [Piece(1, "month"), Piece(1, "weeks"), Piece(3, "days"), Piece(20, "mins"), Piece(10, "sec")];
    MonthWeekText(ps, t);
    MonthWeekWritable(ps);
    MonthWeekAmount(ps);
    SmallCountsWithinInt(ps);
    ParseJoined(ps);
  }

  lemma MonthWeekText(ps: seq<Piece>, t: string)
    requires ps == [Piece(1, "month"), Piece(1, "weeks"), Piece(3, "days"), Piece(20, "mins"), Piece(10, "sec")]
    requires t == "1 month 1 weeks 3 days 20 mins 10 sec"
    ensures Joined(ps) == t
  {
    SmallNumbers();
    var r4: seq<Piece> := [Piece(10, "sec")];
    var r3 := [Piece(20, "mins")] + r4;
    var r2 := [Piece(3, "days")] + r3;
    var r1 := [Piece(1, "weeks")] + r2;
    var j4 := JoinedCons(Piece(10, "sec"), [], "", "10");
    assert [Piece(10, "sec")] + [] == r4;
    var j3 := JoinedCons(Piece(20, "mins"), r4, j4, "20");
    var j2 := JoinedCons(Piece(3, "days"), r3, j3, "3");
    var j1 := JoinedCons(Piece(1, "weeks"), r2, j2, "1");
    var j0 := JoinedCons(Piece(1, "month"), r1, j1, "1");
    assert [Piece(1, "month")] + r1 == ps;
    MonthWeekConcat(j4, j3, j2, j1, j0);
  }

  lemma MonthWeekConcat(j4: string, j3: string, j2: string, j1: string, j0: string)
    requires j4 == "10" + " " + "sec"
    requires j3 == "20" + " " + "mins" + " " + j4
    requires j2 == "3" + " " + "days" + " " + j3
    requires j1 == "1" + " " + "weeks" + " " + j2
    requires j0 == "1" + " " + "month" + " " + j1
    ensures j0 == "1 month 1 weeks 3 days 20 mins 10 sec"
  {
  }

  lemma SmallNumbers()
    ensures NatToString(1) == "1" && NatToString(3) == "3" && NatToString(20) == "20" && NatToString(10) == "10"
  {
  }

  /** The text of a piece followed by others, given the text of the others and the digits of the count. */
  lemma JoinedCons(p: Piece, rest: seq<Piece>, j: string, d: string) returns (r: string)
    requires j == Joined(rest) && d == NatToString(p.count)
    ensures r == Joined([p] + rest)
    ensures r == if rest == [] then d + " " + p.word else d + " " + p.word + " " + j
  {
    assert ([p] + rest)[1..] == rest;
    r := Joined([p] + rest);
  }

  lemma MonthWeekWritable(ps: seq<Piece>)
    requires ps == [Piece(1, "month"), Piece(1, "weeks"), Piece(3, "days"), Piece(20, "mins"), Piece(10, "sec")]
    ensures Writable(ps)
  {
    OwnUnitMonth();
    OwnUnitWeeks();
    OwnUnitDays();
    OwnUnitMins();
    OwnUnitSec();
    forall i | 0 <= i < |ps| ensures OwnUnit(ps[i].word) && ps[i].count <= INT_MAX {
      if i == 0 { assert ps[i].word == "month"; }
      else if i == 1 { assert ps[i].word == "weeks"; }
      else if i == 2 { assert ps[i].word == "days"; }
      else if i == 3 { assert ps[i].word == "mins"; }
      else { assert ps[i].word == "sec"; }
    }
  }

  lemma MonthWeekAmount(ps: seq<Piece>)
    requires ps == [Piece(1, "month"), Piece(1, "weeks"), Piece(3, "days"), Piece(20, "mins"), Piece(10, "sec")]
    ensures PiecesAmount(ps) == Period(0, 1, 10) && CountSum(ps) == 35
  {
    assert UnitOf("month") == Some(Months) && UnitOf("weeks") == Some(Weeks) && UnitOf("days") == Some(Days);
    assert UnitOf("mins") == Some(Minutes) && UnitOf("sec") == Some(Seconds);
    var a, b, c, d := ps[1..], ps[2..], ps[3..], ps[4..];
    assert a[1..] == b && b[1..] == c && c[1..] == d && d[1..] == [];
    assert PieceCalendar(ps);
    assert PieceLastYears(d, 0) == 0;
    assert PieceLastYears(c, 0) == 0;
    assert PieceLastYears(b, 0) == 0;
    assert PieceLastYears(a, 0) == 0;
    assert PieceLastYears(ps, 0) == 0;
    assert PieceTotal(d, Months) == 0 && PieceTotal(d, Weeks) == 0 && PieceTotal(d, Days) == 0;
    assert PieceTotal(c, Months) == 0 && PieceTotal(c, Weeks) == 0 && PieceTotal(c, Days) == 0;
    assert PieceTotal(b, Months) == 0 && PieceTotal(b, Weeks) == 0 && PieceTotal(b, Days) == 3;
    assert PieceTotal(a, Months) == 0 && PieceTotal(a, Weeks) == 1 && PieceTotal(a, Days) == 3;
    assert PieceTotal(ps, Months) == 1 && PieceTotal(ps, Weeks) == 1 && PieceTotal(ps, Days) == 3;
    assert CountSum(d) == 10 && CountSum(c) == 30 && CountSum(b) == 33 && CountSum(a) == 34;
  }

  /** Sixty days, with no calendar unit named, are sixty exact days. */
  lemma SixtyDays(t: string)
    requires t == "60 days"
    ensures ParseSpec(t) == Ok(Duration(NanosIn(60, Days)))
  {
    var ps := [Piece(60, "days")];
    SixtyDaysPieces(ps, t);
    SixtyDaysWritable(ps);
    SmallCountsWithinInt(ps);
    ParseJoined(ps);
  }

  lemma SixtyDaysPieces(ps: seq<Piece>, t: string)
    requires ps == [Piece(60, "days")] && t == "60 days"
    ensures Joined(ps) == t && PiecesAmount(ps) == Duration(NanosIn(60, Days)) && CountSum(ps) == 60
  {
    assert NatToString(60) == "60";
    assert UnitOf("days") == Some(Days) && ps[1..] == [];
    assert !PieceCalendar(ps[1..]) && PieceNanos(ps[1..]) == 0 && CountSum(ps[1..]) == 0;
    assert !PieceCalendar(ps);
  }

  lemma SixtyDaysWritable(ps: seq<Piece>)
    requires ps == [Piece(60, "days")]
    ensures Writable(ps)
  {
    OwnUnitDays();
    assert OwnUnit(ps[0].word);
  }

  /** "5 millis" is read as five minutes. */
  lemma MillisReadAsMinutes(t: string)
    requires t == "5 millis"
    ensures UnitOf("millis") == Some(Minutes)
    ensures ParseSpec(t) == Ok(Duration(NanosIn(5, Minutes)))
  {
    var ps := [Piece(5, "millis")];
    assert NatToString(5) == "5";
    assert Joined(ps) == t;
    OwnUnitMillis();
    assert Writable(ps);
    assert PiecesAmount(ps) == Duration(NanosIn(5, Minutes));
    assert CountSum(ps[1..]) == 0;
    SmallCountsWithinInt(ps);
    ParseJoined(ps);
  }

  /**
   * Integer.MAX_VALUE days and one week: the Period's plusDays of seven days
   * and then of the days leaves the int range and raises
   * ArithmeticException.
   */
  lemma DaysPastIntRaise(ps: seq<Piece>)
    requires ps == [Piece(INT_MAX, "days"), Piece(1, "weeks")]
    ensures ParseSpec(Joined(ps)) == Err(Arithmetic)
  {
    DaysWeekPieces(ps);
    DaysWeekWritable(ps);
    ParseJoined(ps);
    PieceMatchesSums(ps, 0);
  }

  lemma DaysWeekPieces(ps: seq<Piece>)
    requires ps == [Piece(INT_MAX, "days"), Piece(1, "weeks")]
    ensures PieceTotal(ps, Days) == INT_MAX && PieceTotal(ps, Weeks) == 1 && PieceCalendar(ps)
  {
    assert UnitOf("days") == Some(Days) && UnitOf("weeks") == Some(Weeks);
    var rest := ps[1..];
    assert rest[1..] == [];
    assert PieceTotal(rest, Days) == 0 && PieceTotal(rest, Weeks) == 1 && PieceCalendar(rest);
  }

  lemma DaysWeekWritable(ps: seq<Piece>)
    requires ps == [Piece(INT_MAX, "days"), Piece(1, "weeks")]
    ensures Writable(ps)
  {
    OwnUnitDays();
    OwnUnitWeeks();
    forall i | 0 <= i < |ps| ensures OwnUnit(ps[i].word) && ps[i].count <= INT_MAX {
    }
  }

  /**
   * Integer.MAX_VALUE days and one more day: the int sum of the day counts
   * wraps around to Integer.MIN_VALUE, and the Duration is that many days,
   * negative.
   */
  lemma DaySumWraps(ps: seq<Piece>)
    requires ps == [Piece(INT_MAX, "days"), Piece(1, "day")]
    ensures ParseSpec(Joined(ps)) == Ok(Duration(NanosIn(INT_MIN, Days)))
  {
    DaysDayPieces(ps);
    DaysDayWritable(ps);
    ParseJoined(ps);
    var ms := PieceMatches(ps);
    PieceMatchesSums(ps, 0);
    DaysOnlyAmount(ms);
    WrapPastMax();
  }

  /** Matches in days alone amount to a Duration of the day sum as an int. */
  lemma DaysOnlyAmount(ms: seq<Match>)
    requires AllWhole(ms) && !AnyCalendar(ms) && forall u :: u != Days ==> UnitTotal(ms, u) == 0
    ensures WholeAmount(ms) == Ok(Duration(NanosIn(Wrap32(UnitTotal(ms, Days)), Days)))
  {
    assert Wrap32(0) == 0;
  }

  lemma WrapPastMax()
    ensures Wrap32(INT_MAX + 1) == INT_MIN
  {
  }

  lemma DaysDayPieces(ps: seq<Piece>)
    requires ps == [Piece(INT_MAX, "days"), Piece(1, "day")]
    ensures !PieceCalendar(ps)
    ensures forall u :: PieceTotal(ps, u) == if u == Days then INT_MAX + 1 else 0
  {
    assert UnitOf("days") == Some(Days) && UnitOf("day") == Some(Days);
    var rest := ps[1..];
    assert rest[1..] == [];
    assert !PieceCalendar(rest[1..]) && !PieceCalendar(rest);
    forall u ensures PieceTotal(ps, u) == if u == Days then INT_MAX + 1 else 0 {
      assert PieceTotal(rest, u) == if u == Days then 1 else 0;
    }
  }

  lemma DaysDayWritable(ps: seq<Piece>)
    requires ps == [Piece(INT_MAX, "days"), Piece(1, "day")]
    ensures Writable(ps)
  {
    OwnUnitDays();
    OwnUnitDay();
    forall i | 0 <= i < |ps| ensures OwnUnit(ps[i].word) && ps[i].count <= INT_MAX {
    }
  }

  /** The unit each alternative of the unit group names, by its position in the group. */
  function NamedUnit(k: nat): ChronoUnit
    requires k < UNIT_COUNT
  {
    if k < 2 then Millis
    else if k < 7 then Seconds
    else if k < 11 then Minutes
    else if k < 14 then Hours
    else if k < 17 then Days
    else if k < 20 then Weeks
    else if k < 24 then Months
    else Years
  }

  /** Every alternative but "millis" is read in the unit it names; "millis" is read as minutes. */
  lemma UnitsAsWritten()
    ensures UnitOf(UnitWord(0)) == Some(Minutes) && NamedUnit(0) == Millis
    ensures forall k :: 0 < k < UNIT_COUNT ==> UnitOf(UnitWord(k)) == Some(NamedUnit(k))
  {
    forall k | 0 < k < UNIT_COUNT ensures UnitOf(UnitWord(k)) == Some(NamedUnit(k)) {
      if k < 11 {
        SmallUnitsNamed(k);
      } else {
        LargeUnitsNamed(k);
      }
    }
  }

  lemma SmallUnitsNamed(k: nat)
    requires 0 < k < 11
    ensures UnitOf(UnitWord(k)) == Some(NamedUnit(k))
  {
  }

  lemma LargeUnitsNamed(k: nat)
    requires 11 <= k < UNIT_COUNT
    ensures UnitOf(UnitWord(k)) == Some(NamedUnit(k))
  {
  }

  /** The unit reading evidently intended: "millis" is milliseconds, like "ms"; every other word as written. */
  function IntendedUnitOf(unit: string): Option<ChronoUnit> {
    if unit == "millis" then Some(Millis) else UnitOf(unit)
  }

  /** Read as intended, every alternative of the unit group is the unit it names. */
  lemma IntendedUnitsNamed()
    ensures forall k :: 0 <= k < UNIT_COUNT ==> IntendedUnitOf(UnitWord(k)) == Some(NamedUnit(k))
  {
    UnitsAsWritten();
    forall k | 0 < k < UNIT_COUNT ensures UnitWord(k) != "millis" {
      if k < 11 {
        SmallNotMillis(k);
      } else {
        LargeNotMillis(k);
      }
    }
  }

  lemma SmallNotMillis(k: nat)
    requires 0 < k < 11
    ensures UnitWord(k) != "millis"
  {
  }

  lemma LargeNotMillis(k: nat)
    requires 11 <= k < UNIT_COUNT
    ensures UnitWord(k) != "millis"
  {
  }
}
