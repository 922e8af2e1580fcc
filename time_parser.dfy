/**
 * TimeParser: relative time amounts such as "1 month 2 days" or "3 hours
 * 20 min" parsed into a calendar Period or an exact Duration, and the
 * reverse formatting.
 */
module TimeParser {
  import opened Wrappers
  import opened JavaText

  const NOW: string := "now"

  /** The number of unit alternatives of the pattern. */
  const UNIT_COUNT: nat := 27

  /** The `k`-th unit alternative of the pattern, in the order the regex tries them. */
  function UnitWord(k: nat): (w: string)
    requires k < UNIT_COUNT
    ensures w != []
  {
    match k
    case 0 => "millis"
    case 1 => "ms"
    case 2 => "seconds"
    case 3 => "second"
    case 4 => "secs"
    case 5 => "sec"
    case 6 => "s"
    case 7 => "minutes"
    case 8 => "minute"
    case 9 => "mins"
    case 10 => "min"
    case 11 => "hours"
    case 12 => "hour"
    case 13 => "h"
    case 14 => "days"
    case 15 => "day"
    case 16 => "d"
    case 17 => "weeks"
    case 18 => "week"
    case 19 => "w"
    case 20 => "months"
    case 21 => "month"
    case 22 => "mon"
    case 23 => "mo"
    case 24 => "years"
    case 25 => "year"
    case _ => "y"
  }

  datatype ChronoUnit = Years | Months | Weeks | Days | Hours | Minutes | Seconds | Millis | Micros

  /** A Duration is a count of nanoseconds; a Period counts years, months and days. */
  datatype TemporalAmount = Duration(nanos: int) | Period(years: int, months: int, days: int)

  const NANOS_PER_SECOND: int := 1_000_000_000
  const NANOS_PER_MILLI: int := 1_000_000

  // ---- the pattern \s*([0-9]*\.?[0-9]*)\s*(unit)\s*, case-insensitive ----

  /** The length of the run of regex whitespace starting at `i`. */
  function SpaceRun(t: string, i: nat): (n: nat)
    requires i <= |t|
    ensures i + n <= |t|
    decreases |t| - i
  {
    if i == |t| || !IsRegexSpace(t[i]) then 0 else 1 + SpaceRun(t, i + 1)
  }

  /** `t` has `w` at index `at`, ignoring ASCII case. */
  predicate FoldedAt(t: string, at: nat, w: string) {
    at + |w| <= |t| && forall i :: 0 <= i < |w| ==> LowerChar(t[at + i]) == w[i]
  }

  /** The first alternative, from index `k` on, that `t` has at index `at` (ignoring ASCII case). */
  function FirstUnit(t: string, at: nat, k: nat): (r: Option<string>)
    ensures r.Some? ==> 0 < |r.value| && at + |r.value| <= |t| && FoldedAt(t, at, r.value)
    decreases UNIT_COUNT - k + |t|
  {
    if k >= UNIT_COUNT then None
    else
      var w := UnitWord(k);
      if FoldedAt(t, at, w) then Some(w) else FirstUnit(t, at, k + 1)
  }

  /**
   * A match of the pattern: its length, the digits before the optional
   * dot, whether there is a dot, the digits after it, and the unit
   * alternative.
   */
  datatype Match = Match(length: nat, whole: string, dot: bool, fraction: string, unit: string)

  predicate WellFormed(m: Match) { AllDigits(m.whole) && AllDigits(m.fraction) }

  /** Where the scanner stands within the pattern. */
  datatype Phase = Lead | Whole | Fraction | Gap

  function PhaseRank(p: Phase): nat {
    match p
    case Lead => 3
    case Whole => 2
    case Fraction => 1
    case Gap => 0
  }

  /**
   * The pattern scanned from index `i` of `t`, having started at `at`, with
   * the digits and the dot of group 1 read so far. Every part is greedy, and
   * giving characters back never helps: the unit would then face a digit, a
   * dot or a space, which no alternative starts with.
   */
  function Scan(t: string, at: nat, phase: Phase, i: nat, whole: string, dot: bool, fraction: string): (r: Option<Match>)
    requires at <= i <= |t| && AllDigits(whole) && AllDigits(fraction)
    ensures r.Some? ==> 0 < r.value.length <= |t| - at && WellFormed(r.value)
    decreases |t| - i, PhaseRank(phase)
  {
    match phase
    case Lead =>
      if i < |t| && IsRegexSpace(t[i]) then Scan(t, at, Lead, i + 1, whole, dot, fraction)
      else Scan(t, at, Whole, i, whole, dot, fraction)
    case Whole =>
      if i < |t| && IsDigit(t[i]) then Scan(t, at, Whole, i + 1, whole + [t[i]], dot, fraction)
      else if i < |t| && t[i] == '.' then Scan(t, at, Fraction, i + 1, whole, true, fraction)
      else Scan(t, at, Gap, i, whole, dot, fraction)
    case Fraction =>
      if i < |t| && IsDigit(t[i]) then Scan(t, at, Fraction, i + 1, whole, dot, fraction + [t[i]])
      else Scan(t, at, Gap, i, whole, dot, fraction)
    case Gap =>
      if i < |t| && IsRegexSpace(t[i]) then Scan(t, at, Gap, i + 1, whole, dot, fraction)
      else
        match FirstUnit(t, i, 0)
        case None => None
        case Some(w) => Some(Match(i + |w| + SpaceRun(t, i + |w|) - at, whole, dot, fraction, w))
  }

  /** The pattern anchored at index `at` of `t`. */
  function MatchAt(t: string, at: nat): (r: Option<Match>)
    requires at <= |t|
    ensures r.Some? ==> 0 < r.value.length <= |t| - at && WellFormed(r.value)
  {
    Scan(t, at, Lead, at, [], false, [])
  }

  /** Matcher.find from `from`: the first position where the pattern matches. */
  function Find(s: string, from: nat): (r: Option<(nat, Match)>)
    requires from <= |s|
    ensures r.Some? ==> from <= r.value.0 && r.value.0 + r.value.1.length <= |s|
    ensures r.Some? ==> r.value.1.length > 0 && WellFormed(r.value.1)
    decreases |s| - from
  {
    match MatchAt(s, from)
    case Some(m) => Some((from, m))
    case None => if from == |s| then None else Find(s, from + 1)
  }

  /** Every match the matcher loop finds from `pos` on, in order. */
  function Matches(s: string, pos: nat): (r: seq<Match>)
    requires pos <= |s|
    ensures forall m :: m in r ==> WellFormed(m)
    decreases |s| - pos
  {
    var found := Find(s, pos);
    if found.None? then [] else [found.value.1] + Matches(s, found.value.0 + found.value.1.length)
  }

  lemma {:induction false} MatchesStep(s: string, pos: nat, at: nat, m: Match)
    requires pos <= |s| && Find(s, pos) == Some((at, m))
    ensures at + m.length <= |s| && Matches(s, pos) == [m] + Matches(s, at + m.length)
  {
  }

  // ---- quantities ----

  function Pow10(n: nat): (r: nat)
    ensures r > 0
  {
    if n == 0 then 1 else 10 * Pow10(n - 1)
  }

  /** The decimal number `whole + fraction / 10^places` that group 1 of a match denotes. */
  datatype Quantity = Quantity(whole: nat, fraction: nat, places: nat)

  /**
   * Group 1 of a match as Double.valueOf reads it: an empty group means 1,
   * a lone "." is a NumberFormatException, otherwise the decimal value.
   */
  function QuantityOf(m: Match): (r: Result<Quantity>)
    requires WellFormed(m)
    ensures r.Err? <==> m.whole == [] && m.dot && m.fraction == []
    ensures r.Err? ==> r.error == NumberFormat
    ensures r.Ok? ==> r.value.fraction < Pow10(r.value.places)
    ensures m.whole == [] && !m.dot && m.fraction == [] ==> r == Ok(Quantity(1, 0, 0))
    ensures r.Ok? && m.whole != [] ==> r.value.whole == DigitsValue(m.whole)
  {
    if m.whole == [] && !m.dot && m.fraction == [] then Ok(Quantity(1, 0, 0))
    else if m.whole == [] && m.fraction == [] then Err(NumberFormat)
    else
      DigitsBelowPow10(m.fraction);
      Ok(Quantity(DigitsValue(m.whole), DigitsValue(m.fraction), |m.fraction|))
  }

  lemma {:induction false} DigitsBelowPow10(s: string)
    requires AllDigits(s)
    ensures DigitsValue(s) < Pow10(|s|)
  {
    if s != [] {
      assert s[|s| - 1] in s;
      assert forall c :: c in s[..|s| - 1] ==> c in s;
      DigitsBelowPow10(s[..|s| - 1]);
    }
  }

  /** (int) quantity: the whole part, saturated at Integer.MAX_VALUE. */
  function Full(q: Quantity): (r: int)
    ensures 0 <= r <= INT_MAX && r <= q.whole
    ensures q.whole <= INT_MAX ==> r == q.whole
  {
    if q.whole <= INT_MAX then q.whole else INT_MAX
  }

  /** quantity - full > 0: something is left after the cast. */
  predicate HasFraction(q: Quantity) {
    q.whole > INT_MAX || q.fraction > 0
  }

  /** `x / 10^k`, one decimal place at a time. */
  function ShiftDown(x: nat, k: nat): nat {
    if k == 0 then x else ShiftDown(x / 10, k - 1)
  }

  /**
   * (int) ((quantity - full) * factor + 0.5): what is left after the cast,
   * carried into the next finer unit and rounded half up, saturated at
   * Integer.MAX_VALUE.
   */
  function Carry(q: Quantity, factor: nat): (r: int)
    ensures 0 <= r <= INT_MAX
  {
    var v := (q.whole - Full(q)) * factor + ShiftDown((2 * q.fraction * factor + Pow10(q.places)) / 2, q.places);
    if v <= INT_MAX then v else INT_MAX
  }

  function Get(q: map<ChronoUnit, int>, u: ChronoUnit): int {
    if u in q then q[u] else 0
  }

  /** Every count of the map is a Java int, as the Integer values of the source's map are. */
  predicate IntCounts(q: map<ChronoUnit, int>) {
    forall u :: IsInt(Get(q, u))
  }

  /** Map.compute(u, (k, prev) -> prev == null ? v : prev + v), where prev + v is an int sum and wraps around. */
  function Add(q: map<ChronoUnit, int>, u: ChronoUnit, v: int): (r: map<ChronoUnit, int>)
    ensures Get(r, u) == Wrap32(Get(q, u) + v) && forall x :: x != u ==> Get(r, x) == Get(q, x)
    ensures r.Keys == q.Keys + {u}
    ensures IntCounts(q) ==> IntCounts(r)
  {
    q[u := Wrap32(Get(q, u) + v)]
  }

  /** startsWith of a one-letter prefix. */
  predicate Begins1(s: string, a: char) { |s| >= 1 && s[0] == a }

  /** startsWith of a two-letter prefix. */
  predicate Begins2(s: string, a: char, b: char) { |s| >= 2 && s[0] == a && s[1] == b }

  /** The unit a match counts in, dispatched on the prefix of the alternative as the source does. */
  function UnitOf(unit: string): Option<ChronoUnit> {
    if Begins1(unit, 'y') then Some(Years)
    else if Begins2(unit, 'm', 'o') then Some(Months)
    else if Begins1(unit, 'w') then Some(Weeks)
    else if Begins2(unit, 'm', 'i') then Some(Minutes)
    else if Begins1(unit, 'h') then Some(Hours)
    else if Begins1(unit, 'd') then Some(Days)
    else if Begins1(unit, 's') then Some(Seconds)
    else if unit == "ms" then Some(Millis)
    else None
  }

  /** The next finer unit a fraction of `u` is carried into, with how many of it make one `u`: 12 months a year, 4 * 7 days a month, and so on. */
  function Finer(u: ChronoUnit): Option<(ChronoUnit, nat)> {
    match u
    case Years => Some((Months, 12))
    case Months => Some((Days, 4 * 7))
    case Weeks => Some((Days, 7))
    case Minutes => Some((Seconds, 60))
    case Hours => Some((Minutes, 60))
    case Days => Some((Hours, 24))
    case Seconds => Some((Millis, 1000))
    case Millis => Some((Micros, 1000))
    case Micros => None
  }

  /** The fraction of a quantity in unit `u` added to the next finer unit. */
  function CarryInto(u: ChronoUnit, q: map<ChronoUnit, int>, qty: Quantity): map<ChronoUnit, int> {
    match Finer(u)
    case None => q
    case Some(f) => Add(q, f.0, Carry(qty, f.1))
  }

  predicate IsCalendarUnit(u: ChronoUnit) { u == Years || u == Months || u == Weeks }

  /**
   * One round of the matcher loop: years are PUT (a later year quantity
   * replaces an earlier one), every other unit is added, and a positive
   * fraction is carried into the next finer unit; years, months and weeks
   * switch to a Period.
   */
  function ApplyMatch(m: Match, q: map<ChronoUnit, int>, usePeriod: bool): Result<(map<ChronoUnit, int>, bool)>
    requires WellFormed(m)
  {
    match QuantityOf(m)
    case Err(e) => Err(e)
    case Ok(qty) =>
      match UnitOf(m.unit)
      case None => Ok((q, usePeriod))
      case Some(u) =>
        var counted := if u == Years then q[Years := Full(qty)] else Add(q, u, Full(qty));
        var carried := if HasFraction(qty) then CarryInto(u, counted, qty) else counted;
        Ok((carried, usePeriod || IsCalendarUnit(u)))
  }

  /** The matcher loop over a list of matches, stopping at the first exception. */
  function Fold(ms: seq<Match>, q: map<ChronoUnit, int>, usePeriod: bool): Result<(map<ChronoUnit, int>, bool)>
    requires forall m :: m in ms ==> WellFormed(m)
  {
    if ms == [] then Ok((q, usePeriod))
    else
      var step := ApplyMatch(ms[0], q, usePeriod);
      if step.Err? then Err(step.error) else Fold(ms[1..], step.value.0, step.value.1)
  }

  lemma FoldCons(m: Match, rest: seq<Match>, q: map<ChronoUnit, int>, usePeriod: bool)
    requires WellFormed(m) && forall x :: x in rest ==> WellFormed(x)
    ensures var step := ApplyMatch(m, q, usePeriod);
      Fold([m] + rest, q, usePeriod) == if step.Err? then Err(step.error) else Fold(rest, step.value.0, step.value.1)
  {
    assert ([m] + rest)[0] == m && ([m] + rest)[1..] == rest;
  }

  /** `count` of unit `u` in nanoseconds, as Duration.plus(count, u) adds it; the calendar units are never added to a Duration. */
  function NanosIn(count: int, u: ChronoUnit): int {
    match u
    case Days => count * 86_400_000_000_000
    case Hours => count * 3_600_000_000_000
    case Minutes => count * 60_000_000_000
    case Seconds => count * 1_000_000_000
    case Millis => count * 1_000_000
    case Micros => count * 1000
    case _ => 0
  }

  /** Math.toIntExact of a long sum: the value when an int holds it, ArithmeticException otherwise. */
  function ToIntExact(x: int): (r: Result<int>)
    ensures r.Ok? <==> INT_MIN <= x <= INT_MAX
    ensures r.Ok? ==> r.value == x
    ensures r.Err? ==> r.error == Arithmetic
  {
    if IsInt(x) then Ok(x) else Err(Arithmetic)
  }

  /**
   * Period.ZERO, then plusYears of the years, plusDays of 7 times the weeks
   * (an int product, which wraps around), plusMonths of the months and
   * plusDays of the days, each only when the unit is in the map; each plus
   * raises ArithmeticException when its sum leaves the int range. Hours and
   * below are ignored.
   */
  function PeriodOf(q: map<ChronoUnit, int>): (r: Result<TemporalAmount>)
    ensures r.Ok? <==> IsInt(Get(q, Years)) && IsInt(Get(q, Months)) && IsInt(Wrap32(7 * Get(q, Weeks)) + Get(q, Days))
    ensures r.Ok? ==> r.value == Period(Get(q, Years), Get(q, Months), Wrap32(7 * Get(q, Weeks)) + Get(q, Days))
    ensures r.Err? ==> r.error == Arithmetic
  {
    var years := if Years in q then ToIntExact(q[Years]) else Ok(0);
    var weekDays := if Weeks in q then Wrap32(7 * q[Weeks]) else 0;
    var months := if Months in q then ToIntExact(q[Months]) else Ok(0);
    var days := if Days in q then ToIntExact(weekDays + q[Days]) else Ok(weekDays);
    if years.Err? then Err(years.error)
    else if months.Err? then Err(months.error)
    else if days.Err? then Err(days.error)
    else Ok(Period(years.value, months.value, days.value))
  }

  /** Duration.ofSeconds(0) plus every collected quantity in its unit. */
  function DurationOf(q: map<ChronoUnit, int>): TemporalAmount {
    Duration(Nanos(Get(q, Days), Get(q, Hours), Get(q, Minutes), Get(q, Seconds), Get(q, Millis), Get(q, Micros)))
  }

  /** Counts of days, hours, minutes, seconds, milliseconds and microseconds, together in nanoseconds. */
  function Nanos(d: int, h: int, mi: int, s: int, ms: int, us: int): int {
    NanosIn(d, Days) + NanosIn(h, Hours) + NanosIn(mi, Minutes)
    + NanosIn(s, Seconds) + NanosIn(ms, Millis) + NanosIn(us, Micros)
  }

  /** The amount a finished matcher loop yields. */
  function AmountOf(acc: (map<ChronoUnit, int>, bool)): Result<TemporalAmount> {
    if acc.1 then PeriodOf(acc.0) else Ok(DurationOf(acc.0))
  }

  /**
   * The matcher loop from `pos` on: find the next match, apply it, go on
   * after it; stop at the first exception.
   */
  function Rounds(s: string, pos: nat, q: map<ChronoUnit, int>, usePeriod: bool): Result<(map<ChronoUnit, int>, bool)>
    requires pos <= |s|
    decreases |s| - pos
  {
    match Find(s, pos)
    case None => Ok((q, usePeriod))
    case Some(found) =>
      var step := ApplyMatch(found.1, q, usePeriod);
      if step.Err? then Err(step.error) else Rounds(s, found.0 + found.1.length, step.value.0, step.value.1)
  }

  /** One round of the matcher loop that does not raise, with what the rounds after it give passed in as `rest`. */
  lemma RoundsStep(s: string, pos: nat, hit: (nat, Match), q: map<ChronoUnit, int>, usePeriod: bool,
                   step: Result<(map<ChronoUnit, int>, bool)>)
    requires pos <= |s| && Find(s, pos) == Some(hit)
    requires step == ApplyMatch(hit.1, q, usePeriod) && step.Ok?
    ensures hit.0 + hit.1.length <= |s|
    ensures Rounds(s, pos, q, usePeriod) == Rounds(s, hit.0 + hit.1.length, step.value.0, step.value.1)
  {
  }

  /** A round whose match raises ends the loop with that exception. */
  lemma RoundsRaise(s: string, pos: nat, hit: (nat, Match), q: map<ChronoUnit, int>, usePeriod: bool,
                    step: Result<(map<ChronoUnit, int>, bool)>)
    requires pos <= |s| && Find(s, pos) == Some(hit) && step == ApplyMatch(hit.1, q, usePeriod) && step.Err?
    ensures Rounds(s, pos, q, usePeriod) == Err(step.error)
  {
  }

  /** With no match left the loop ends with what it has. */
  lemma RoundsEnd(s: string, pos: nat, q: map<ChronoUnit, int>, usePeriod: bool)
    requires pos <= |s| && Find(s, pos).None?
    ensures Rounds(s, pos, q, usePeriod) == Ok((q, usePeriod))
  {
  }

  /** The matcher loop is the fold of its step over the list of matches. */
  lemma {:induction false} RoundsIsFold(s: string, pos: nat, q: map<ChronoUnit, int>, usePeriod: bool)
    requires pos <= |s|
    ensures Rounds(s, pos, q, usePeriod) == Fold(Matches(s, pos), q, usePeriod)
    decreases |s| - pos
  {
    match Find(s, pos)
    case None =>
    case Some(found) =>
      var next := found.0 + found.1.length;
      MatchesStep(s, pos, found.0, found.1);
      FoldCons(found.1, Matches(s, next), q, usePeriod);
      var step := ApplyMatch(found.1, q, usePeriod);
      if step.Ok? {
        RoundsIsFold(s, next, step.value.0, step.value.1);
      }
  }

  /** What parseTemporalAmount returns, or the exception it raises. */
  function ParseSpec(s: string): Result<TemporalAmount> {
    if EqualsIgnoreCase(NOW, s) then Ok(Duration(0))
    else
      var acc := Rounds(s, 0, map[], false);
      if acc.Err? then Err(acc.error) else AmountOf(acc.value)
  }

  /** parseTemporalAmount: the matcher loop filling the quantity map, then Period or Duration. */
  method ParseTemporalAmount(s: string) returns (r: Result<TemporalAmount>)
    ensures r == ParseSpec(s)
  {
    if EqualsIgnoreCase(NOW, s) {
      return Ok(Duration(0));
    }
    var timeQuantities: map<ChronoUnit, int> := map[];
    var usePeriod := false;
    var pos := 0;
    var found := Find(s, pos);
    while found.Some?
      invariant pos <= |s|
      invariant found == Find(s, pos)
      invariant Rounds(s, pos, timeQuantities, usePeriod) == Rounds(s, 0, map[], false)
      decreases |s| - pos
    {
      var step := MatchRound(s, pos, found.value, timeQuantities, usePeriod);
      if step.Err? {
        return Err(step.error);
      }
      timeQuantities, usePeriod, pos := step.value.0, step.value.1, step.value.2;
      found := Find(s, pos);
    }
    RoundsEnd(s, pos, timeQuantities, usePeriod);
    if usePeriod {
      r := PeriodOf(timeQuantities);
    } else {
      r := Ok(DurationOf(timeQuantities));
    }
  }

  /**
   * One round of the matcher loop on the match `hit` found from `pos`: the
   * exception it raises, or the new map, flag and position, from where the
   * loop goes on as it would have from `pos`.
   */
  method MatchRound(s: string, pos: nat, hit: (nat, Match), q: map<ChronoUnit, int>, usePeriod: bool)
    returns (step: Result<(map<ChronoUnit, int>, bool, nat)>)
    requires pos <= |s| && Find(s, pos) == Some(hit)
    ensures step.Err? ==> Rounds(s, pos, q, usePeriod) == Err(step.error)
    ensures step.Ok? ==> pos < step.value.2 <= |s|
    ensures step.Ok? ==> Rounds(s, pos, q, usePeriod) == Rounds(s, step.value.2, step.value.0, step.value.1)
  {
    var applied := ApplyMatch(hit.1, q, usePeriod);
    if applied.Err? {
      RoundsRaise(s, pos, hit, q, usePeriod, applied);
      return Err(applied.error);
    }
    RoundsStep(s, pos, hit, q, usePeriod, applied);
    return Ok((applied.value.0, applied.value.1, hit.0 + hit.1.length));
  }

  // ---- format ----

  /** The text appended for a count: `one` for 1, the number followed by `many` for more, nothing otherwise. */
  function Part(n: int, one: string, many: string): string {
    if n == 1 then one
    else if n > 0 then IntToString(n) + many
    else ""
  }

  /** Java's long division, truncating toward zero. */
  function JavaDiv(a: int, b: int): int
    requires b > 0
  {
    if a >= 0 then a / b else -((-a) / b)
  }

  /** Days, hours, minutes and seconds a duration is written with. */
  datatype Clock = Clock(days: int, hours: int, minutes: int, seconds: int)

  /**
   * One step of the breakdown format performs: p = (int) (secs / unit), and
   * when p > 0, secs -= p * unit in int arithmetic; the count and the
   * seconds left.
   */
  function TakeUnit(secs: int, unit: nat): (int, int)
    requires unit > 0
  {
    var p := Wrap32(JavaDiv(secs, unit));
    (p, if p > 0 then secs - Wrap32(p * unit) else secs)
  }

  /** The breakdown format performs, in days, hours, minutes and the seconds left. */
  function ClockAsWritten(secs: int): Clock {
    var d := TakeUnit(secs, 86400);
    var h := TakeUnit(d.1, 3600);
    var m := TakeUnit(h.1, 60);
    Clock(d.0, h.0, m.0, m.1)
  }

  /** The text of a clock and a millisecond count, before trimming. */
  function ClockText(c: Clock, ms: int): string {
    Part(c.days, "1 day ", " days ") + Part(c.hours, "1 hour ", " hours ")
    + Part(c.minutes, "1 minute ", " minutes ") + Part(c.seconds, "1 second ", " seconds ")
    + (if ms > 0 then IntToString(ms) + " ms" else "")
  }

  /** The whole seconds of a duration, Duration.getSeconds. */
  function SecondsOf(nanos: int): int { nanos / NANOS_PER_SECOND }

  /** The milliseconds within the second, Duration.getNano() / 1000000. */
  function MillisOf(nanos: int): int { nanos % NANOS_PER_SECOND / NANOS_PER_MILLI }

  function PeriodText(years: int, months: int, days: int): string {
    Part(years, "1 year ", " years ") + Part(months, "1 month ", " months ") + Part(days, "1 day", " days")
  }

  /** What format returns: "now" for a zero amount, otherwise its parts from the largest unit down, trimmed. */
  function FormatSpec(amount: TemporalAmount): string {
    match amount
    case Period(y, m, d) =>
      if y == 0 && m == 0 && d == 0 then NOW else Trim(PeriodText(y, m, d))
    case Duration(nanos) =>
      if SecondsOf(nanos) == 0 then NOW else Trim(ClockText(ClockAsWritten(SecondsOf(nanos)), MillisOf(nanos)))
  }

  /** format: a Period or a Duration, each written by its own branch. */
  method Format(amount: TemporalAmount) returns (text: string)
    ensures text == FormatSpec(amount)
  {
    if amount.Period? {
      text := FormatPeriod(amount.years, amount.months, amount.days);
    } else {
      text := FormatDuration(amount.nanos);
    }
  }

  /** Appends a count: `one` for 1, the number and then `many` for more, nothing otherwise. */
  method AppendCount(buf: string, n: int, one: string, many: string) returns (r: string)
    ensures r == buf + Part(n, one, many)
  {
    r := buf;
    if n == 1 {
      r := r + one;
    } else if n > 0 {
      r := r + (IntToString(n) + many);
    }
  }

  /**
   * One step of the Duration branch: p = (int) (secs / unit), and when p > 0
   * the count is appended and secs -= p * unit.
   */
  method AppendUnit(buf: string, secs: int, unit: nat, one: string, many: string) returns (r: string, p: int, left: int)
    requires unit > 0
    ensures (p, left) == TakeUnit(secs, unit)
    ensures r == buf + Part(p, one, many)
  {
    p := Wrap32(JavaDiv(secs, unit));
    r, left := buf, secs;
    if p > 0 {
      r := AppendCount(buf, p, one, many);
      left := secs - Wrap32(p * unit);
    }
  }

  /** The Period branch of format: years, months and days appended to a buffer. */
  method FormatPeriod(years: int, months: int, days: int) returns (text: string)
    ensures text == FormatSpec(Period(years, months, days))
  {
    if years == 0 && months == 0 && days == 0 {
      return NOW;
    }
    var buf := "";
    buf := AppendCount(buf, years, "1 year ", " years ");
    assert buf == Part(years, "1 year ", " years ");
    buf := AppendCount(buf, months, "1 month ", " months ");
    buf := AppendCount(buf, days, "1 day", " days");
    text := Trim(buf);
  }

  /** The first three steps of the Duration branch: days, hours and minutes taken off the seconds. */
  method AppendClock(total: int) returns (buf: string, clock: Clock)
    ensures clock == ClockAsWritten(total)
    ensures buf == Part(clock.days, "1 day ", " days ") + Part(clock.hours, "1 hour ", " hours ")
                   + Part(clock.minutes, "1 minute ", " minutes ")
  {
    var secs, days, hours, minutes;
    buf, days, secs := AppendUnit("", total, 24 * 60 * 60, "1 day ", " days ");
    assert buf == Part(days, "1 day ", " days ");
    buf, hours, secs := AppendUnit(buf, secs, 60 * 60, "1 hour ", " hours ");
    buf, minutes, secs := AppendUnit(buf, secs, 60, "1 minute ", " minutes ");
    clock := Clock(days, hours, minutes, secs);
  }

  /** The Duration branch of format: whole days, hours and minutes taken off the seconds. */
  method FormatDuration(nanos: int) returns (text: string)
    ensures text == FormatSpec(Duration(nanos))
  {
    var secs := SecondsOf(nanos);
    if secs == 0 {
      return NOW;
    }
    var buf, clock := AppendClock(secs);
    ghost var done := buf;
    if clock.seconds > 0 {
      buf := AppendCount(buf, clock.seconds, "1 second ", " seconds ");
    }
    assert buf == done + Part(clock.seconds, "1 second ", " seconds ");
    ghost var whole := buf;
    var ms := MillisOf(nanos);
    if ms > 0 {
      buf := buf + (IntToString(ms) + " ms");
    }
    assert buf == whole + (if ms > 0 then IntToString(ms) + " ms" else "");
    assert buf == ClockText(clock, ms);
    text := Trim(buf);
  }
}
