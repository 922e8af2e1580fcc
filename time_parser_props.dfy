/**
 * What parseTemporalAmount computes, stated over the list of matches of the
 * pattern rather than as the matcher loop: the int sums per unit, the last
 * year quantity, the switch to a Period, the NumberFormatException of a lone
 * dot and the ArithmeticException of a day count beyond the int range.
 */
module TimeParserProps {
  import opened Wrappers
  import opened JavaText
  import opened TimeParser

  /** Group 1 of a match is a lone ".", which Double.valueOf refuses. */
  predicate LoneDot(m: Match) { m.whole == [] && m.dot && m.fraction == [] }

  /** Group 1 of a match is empty or a whole number within int range: no fraction to carry. */
  predicate WholeCount(m: Match) {
    WellFormed(m) && !m.dot && m.fraction == [] && (m.whole == [] || DigitsValue(m.whole) <= INT_MAX)
  }

  /** The count group 1 stands for: 1 when it is empty. */
  function CountOf(m: Match): nat
    requires WholeCount(m)
  {
    if m.whole == [] then 1 else DigitsValue(m.whole)
  }

  predicate AllWhole(ms: seq<Match>) { forall m :: m in ms ==> WholeCount(m) }

  /** The sum of the counts of the matches in unit `u`. */
  function UnitTotal(ms: seq<Match>, u: ChronoUnit): (r: int)
    requires AllWhole(ms)
    ensures r >= 0
  {
    if ms == [] then 0
    else (if UnitOf(ms[0].unit) == Some(u) then CountOf(ms[0]) else 0) + UnitTotal(ms[1..], u)
  }

  /** The count of the last match in years, or `prior` when there is none. */
  function LastYears(ms: seq<Match>, prior: int): (r: int)
    requires AllWhole(ms)
    ensures IsInt(prior) ==> IsInt(r)
  {
    if ms == [] then prior
    else LastYears(ms[1..], if UnitOf(ms[0].unit) == Some(Years) then CountOf(ms[0]) else prior)
  }

  /** Some match is in years, months or weeks. */
  predicate AnyCalendar(ms: seq<Match>) {
    exists i :: 0 <= i < |ms| && UnitOf(ms[i].unit).Some? && IsCalendarUnit(UnitOf(ms[i].unit).value)
  }

  /** Every match in its unit, in nanoseconds, summed. */
  function NanosOf(ms: seq<Match>): int
    requires AllWhole(ms)
  {
    if ms == [] then 0
    else (match UnitOf(ms[0].unit) case None => 0 case Some(u) => NanosIn(CountOf(ms[0]), u)) + NanosOf(ms[1..])
  }

  /** A match with a whole count adds it to its unit (years: replaces), with nothing carried. */
  lemma ApplyWholeMatch(m: Match, q: map<ChronoUnit, int>, usePeriod: bool)
    requires WholeCount(m)
    ensures ApplyMatch(m, q, usePeriod) ==
      Ok(match UnitOf(m.unit)
         case None => (q, usePeriod)
         case Some(u) => (if u == Years then q[Years := CountOf(m)] else Add(q, u, CountOf(m)), usePeriod || IsCalendarUnit(u)))
  {
    var qty := QuantityOf(m);
    assert qty == Ok(Quantity(CountOf(m), 0, 0));
  }

  lemma AnyCalendarCons(ms: seq<Match>)
    requires ms != []
    ensures AnyCalendar(ms) <==> (UnitOf(ms[0].unit).Some? && IsCalendarUnit(UnitOf(ms[0].unit).value)) || AnyCalendar(ms[1..])
  {
    if AnyCalendar(ms[1..]) {
      var i :| 0 <= i < |ms[1..]| && UnitOf(ms[1..][i].unit).Some? && IsCalendarUnit(UnitOf(ms[1..][i].unit).value);
      assert ms[i + 1] == ms[1..][i];
    }
    if AnyCalendar(ms) {
      var i :| 0 <= i < |ms| && UnitOf(ms[i].unit).Some? && IsCalendarUnit(UnitOf(ms[i].unit).value);
      if i > 0 {
        assert ms[1..][i - 1] == ms[i];
      }
    }
  }

  /** One round of the loop keeps every count of the map an int. */
  lemma ApplyKeepsIntCounts(m: Match, q: map<ChronoUnit, int>, usePeriod: bool)
    requires WellFormed(m) && IntCounts(q)
    ensures ApplyMatch(m, q, usePeriod).Ok? ==> IntCounts(ApplyMatch(m, q, usePeriod).value.0)
  {
    if QuantityOf(m).Ok? && UnitOf(m.unit) == Some(Years) {
      var r := q[Years := Full(QuantityOf(m).value)];
      assert forall u :: Get(r, u) == if u == Years then Full(QuantityOf(m).value) else Get(q, u);
    }
  }

  /** The loop keeps every count of the map an int, whatever the matches. */
  lemma {:induction false} FoldKeepsIntCounts(ms: seq<Match>, q: map<ChronoUnit, int>, usePeriod: bool)
    requires (forall m :: m in ms ==> WellFormed(m)) && IntCounts(q)
    ensures Fold(ms, q, usePeriod).Ok? ==> IntCounts(Fold(ms, q, usePeriod).value.0)
  {
    if ms != [] {
      assert ms[0] in ms;
      assert forall m :: m in ms[1..] ==> m in ms;
      ApplyKeepsIntCounts(ms[0], q, usePeriod);
      var step := ApplyMatch(ms[0], q, usePeriod);
      if step.Ok? {
        FoldKeepsIntCounts(ms[1..], step.value.0, step.value.1);
      }
    }
  }

  /** One round of the loop on a match with a whole count: the map after it. */
  function WholeApply(m: Match, q: map<ChronoUnit, int>): map<ChronoUnit, int>
    requires WholeCount(m)
  {
    match UnitOf(m.unit)
    case None => q
    case Some(u) => q[u := if u == Years then CountOf(m) else Wrap32(Get(q, u) + CountOf(m))]
  }

  /** The map the loop ends with over matches with whole counts. */
  function WholeMap(ms: seq<Match>, q: map<ChronoUnit, int>): map<ChronoUnit, int>
    requires AllWhole(ms)
  {
    if ms == [] then q
    else
      assert forall x :: x in ms[1..] ==> x in ms;
      WholeMap(ms[1..], WholeApply(ms[0], q))
  }

  /** Over matches with whole counts the loop never raises; it ends with WholeMap, and the Period switch on exactly when some match is in years, months or weeks. */
  lemma {:induction false} FoldWholeMap(ms: seq<Match>, q: map<ChronoUnit, int>, usePeriod: bool)
    requires AllWhole(ms)
    ensures Fold(ms, q, usePeriod) == Ok((WholeMap(ms, q), usePeriod || AnyCalendar(ms)))
  {
    if ms != [] {
      var m, rest := ms[0], ms[1..];
      assert m in ms;
      assert forall x :: x in rest ==> x in ms;
      ApplyWholeMatch(m, q, usePeriod);
      var step := ApplyMatch(m, q, usePeriod).value;
      FoldWholeMap(rest, step.0, step.1);
      AnyCalendarCons(ms);
    }
  }

  /** A match with a whole count keeps every count an int. */
  lemma WholeApplyIntCounts(m: Match, q: map<ChronoUnit, int>)
    requires WholeCount(m) && IntCounts(q)
    ensures IntCounts(WholeApply(m, q))
  {
    if UnitOf(m.unit).Some? {
      var v := UnitOf(m.unit).value;
      var r := q[v := if v == Years then CountOf(m) else Wrap32(Get(q, v) + CountOf(m))];
      assert WholeApply(m, q) == r;
      assert forall u :: Get(r, u) == if u == v then r[v] else Get(q, u);
    }
  }

  lemma {:induction false} WholeMapIntCounts(ms: seq<Match>, q: map<ChronoUnit, int>)
    requires AllWhole(ms) && IntCounts(q)
    ensures IntCounts(WholeMap(ms, q))
  {
    if ms != [] {
      assert forall x :: x in ms[1..] ==> x in ms;
      WholeApplyIntCounts(ms[0], q);
      WholeMapIntCounts(ms[1..], WholeApply(ms[0], q));
    }
  }

  lemma {:induction false} WholeMapYears(ms: seq<Match>, q: map<ChronoUnit, int>)
    requires AllWhole(ms)
    ensures Get(WholeMap(ms, q), Years) == LastYears(ms, Get(q, Years))
  {
    if ms != [] {
      assert forall x :: x in ms[1..] ==> x in ms;
      WholeMapYears(ms[1..], WholeApply(ms[0], q));
    }
  }

  /** A match with a whole count adds it, as an int sum, to its own unit's count and leaves the other units but years alone. */
  lemma WholeApplyCount(m: Match, q: map<ChronoUnit, int>, u: ChronoUnit)
    requires WholeCount(m) && IntCounts(q) && u != Years
    ensures Get(WholeApply(m, q), u) == Wrap32(Get(q, u) + Share(CountOf(m), UnitOf(m.unit), u))
  {
    assert IsInt(Get(q, u));
    match UnitOf(m.unit) {
      case None =>
        assert WholeApply(m, q) == q;
      case Some(v) =>
        if v == Years {
          assert WholeApply(m, q) == q[Years := CountOf(m)];
        } else {
          assert WholeApply(m, q) == q[v := Wrap32(Get(q, v) + CountOf(m))];
        }
    }
  }

  /** The count of unit `u` through the loop's rounds, from `prior`: each match adds its share, as an int sum. */
  function UnitRun(ms: seq<Match>, prior: int, u: ChronoUnit): int
    requires AllWhole(ms)
  {
    if ms == [] then prior
    else
      assert forall x :: x in ms[1..] ==> x in ms;
      UnitRun(ms[1..], Wrap32(prior + Share(CountOf(ms[0]), UnitOf(ms[0].unit), u)), u)
  }

  /** Every unit but years follows its own run through WholeMap. */
  lemma {:induction false} WholeMapRun(ms: seq<Match>, q: map<ChronoUnit, int>, u: ChronoUnit)
    requires AllWhole(ms) && IntCounts(q) && u != Years
    ensures Get(WholeMap(ms, q), u) == UnitRun(ms, Get(q, u), u)
  {
    if ms != [] {
      assert forall x :: x in ms[1..] ==> x in ms;
      var next := WholeApply(ms[0], q);
      WholeApplyCount(ms[0], q, u);
      WholeApplyIntCounts(ms[0], q);
      WholeMapRun(ms[1..], next, u);
    }
  }

  /** The run from an int count ends at that count plus the unit's total, as an int sum. */
  lemma {:induction false} UnitRunTotal(ms: seq<Match>, prior: int, u: ChronoUnit)
    requires AllWhole(ms) && IsInt(prior)
    ensures UnitRun(ms, prior, u) == Wrap32(prior + UnitTotal(ms, u))
  {
    if ms != [] {
      assert forall x :: x in ms[1..] ==> x in ms;
      var after := Wrap32(prior + Share(CountOf(ms[0]), UnitOf(ms[0].unit), u));
      UnitRunTotal(ms[1..], after, u);
      TotalAfterFirst(ms, prior, after, u);
    }
  }

  /** Every unit but years ends as its prior count plus the sum of its counts, as an int sum. */
  lemma WholeMapTotals(ms: seq<Match>, q: map<ChronoUnit, int>, u: ChronoUnit)
    requires AllWhole(ms) && IntCounts(q) && u != Years
    ensures Get(WholeMap(ms, q), u) == Wrap32(Get(q, u) + UnitTotal(ms, u))
  {
    WholeMapRun(ms, q, u);
    UnitRunTotal(ms, Get(q, u), u);
  }

  /**
   * Over matches with whole counts the loop never raises, keeps the counts
   * ints, ends with years as the last year count, and the Period switch is
   * on exactly when some match is in years, months or weeks.
   */
  lemma FoldWhole(ms: seq<Match>, q: map<ChronoUnit, int>, usePeriod: bool)
    requires AllWhole(ms) && IntCounts(q)
    ensures Fold(ms, q, usePeriod).Ok? && IntCounts(Fold(ms, q, usePeriod).value.0)
    ensures Fold(ms, q, usePeriod).value.1 == (usePeriod || AnyCalendar(ms))
    ensures Get(Fold(ms, q, usePeriod).value.0, Years) == LastYears(ms, Get(q, Years))
  {
    FoldWholeMap(ms, q, usePeriod);
    WholeMapIntCounts(ms, q);
    WholeMapYears(ms, q);
  }

  /** Over matches with whole counts every unit but years ends as its prior count plus the sum of its counts, as an int sum. */
  lemma FoldWholeTotals(ms: seq<Match>, q: map<ChronoUnit, int>, usePeriod: bool, u: ChronoUnit)
    requires AllWhole(ms) && IntCounts(q) && u != Years
    ensures Fold(ms, q, usePeriod).Ok? && Get(Fold(ms, q, usePeriod).value.0, u) == Wrap32(Get(q, u) + UnitTotal(ms, u))
  {
    FoldWholeMap(ms, q, usePeriod);
    WholeMapTotals(ms, q, u);
  }

  /** Adding the first match's share to a unit and then the rest's total, wrapping each time, is adding the whole total once. */
  lemma TotalAfterFirst(ms: seq<Match>, prior: int, after: int, u: ChronoUnit)
    requires AllWhole(ms) && ms != []
    requires after == Wrap32(prior + Share(CountOf(ms[0]), UnitOf(ms[0].unit), u))
    ensures Wrap32(after + UnitTotal(ms[1..], u)) == Wrap32(prior + UnitTotal(ms, u))
  {
    UnitTotalCons(ms, u);
    WrapSum(prior, Share(CountOf(ms[0]), UnitOf(ms[0].unit), u), after, UnitTotal(ms[1..], u), UnitTotal(ms, u));
  }

  /** Wrapping after each of two additions is wrapping the whole sum once. */
  lemma WrapSum(prior: int, first: int, after: int, rest: int, total: int)
    requires after == Wrap32(prior + first) && total == first + rest
    ensures Wrap32(after + rest) == Wrap32(prior + total)
  {
    WrapAdd(prior + first, rest);
    assert prior + first + rest == prior + total;
  }

  /** What parseTemporalAmount returns for text other than "now", as the fold over its matches. */
  lemma ParseIsFold(s: string)
    requires !EqualsIgnoreCase(NOW, s)
    ensures var acc := Fold(Matches(s, 0), map[], false);
      ParseSpec(s) == if acc.Err? then Err(acc.error) else AmountOf(acc.value)
  {
    RoundsIsFold(s, 0, map[], false);
  }

  /**
   * What counts per unit amount to: with a calendar unit, a Period of the
   * years, the months and seven days a week plus the days, in int
   * arithmetic, or ArithmeticException when one of those leaves the int
   * range (hours and below are dropped); otherwise a Duration of every unit
   * in nanoseconds.
   */
  function CountsAmount(calendar: bool, y: int, mo: int, w: int, d: int, h: int, mi: int, s: int, ml: int, us: int): Result<TemporalAmount> {
    if calendar then
      var days := Wrap32(7 * w) + d;
      if IsInt(y) && IsInt(mo) && IsInt(days) then Ok(Period(y, mo, days)) else Err(Arithmetic)
    else
      Ok(Duration(Nanos(d, h, mi, s, ml, us)))
  }

  /** The amount of a finished loop is that of the counts its map holds. */
  lemma AmountOfCounts(q: map<ChronoUnit, int>, calendar: bool)
    ensures AmountOf((q, calendar)) == CountsAmount(calendar, Get(q, Years), Get(q, Months), Get(q, Weeks), Get(q, Days),
                                                     Get(q, Hours), Get(q, Minutes), Get(q, Seconds), Get(q, Millis), Get(q, Micros))
  {
  }

  /**
   * The amount the loop yields over matches with whole counts, from an
   * empty map: the amount of the last year count and of every other unit's
   * sum, as an int sum.
   */
  function WholeAmount(ms: seq<Match>): Result<TemporalAmount>
    requires AllWhole(ms)
  {
    CountsAmount(AnyCalendar(ms), LastYears(ms, 0), Wrap32(UnitTotal(ms, Months)), Wrap32(UnitTotal(ms, Weeks)),
                 Wrap32(UnitTotal(ms, Days)), Wrap32(UnitTotal(ms, Hours)), Wrap32(UnitTotal(ms, Minutes)),
                 Wrap32(UnitTotal(ms, Seconds)), Wrap32(UnitTotal(ms, Millis)), Wrap32(UnitTotal(ms, Micros)))
  }

  /**
   * Over matches with whole counts, from an empty map, the loop never
   * raises and yields the amount of the int sums: a Period of the last year
   * count, the months and seven days a week plus the days when some match is
   * in years, months or weeks (hours and below are dropped); otherwise a
   * Duration of every unit's sum in its unit.
   */
  lemma FoldWholeAmount(ms: seq<Match>)
    requires AllWhole(ms)
    ensures Fold(ms, map[], false).Ok? && AmountOf(Fold(ms, map[], false).value) == WholeAmount(ms)
  {
    FoldWholeMap(ms, map[], false);
    WholeMapAmount(ms, WholeMap(ms, map[]));
  }

  /** The map the loop ends with, from an empty map, amounts to WholeAmount. */
  lemma WholeMapAmount(ms: seq<Match>, q: map<ChronoUnit, int>)
    requires AllWhole(ms) && q == WholeMap(ms, map[])
    ensures AmountOf((q, AnyCalendar(ms))) == WholeAmount(ms)
  {
    WholeMapYears(ms, map[]);
    forall u | u != Years
      ensures Get(q, u) == Wrap32(UnitTotal(ms, u))
    {
      WholeMapTotals(ms, map[], u);
    }
    AmountOfCounts(q, AnyCalendar(ms));
  }

  /** parseTemporalAmount on text other than "now" whose every match has a whole count. */
  lemma ParseWholeCounts(s: string)
    requires !EqualsIgnoreCase(NOW, s) && AllWhole(Matches(s, 0))
    ensures ParseSpec(s) == WholeAmount(Matches(s, 0))
  {
    ParseIsFold(s);
    FoldWholeAmount(Matches(s, 0));
  }

  /** Every match in its unit, in nanoseconds, is every unit's sum in its unit. */
  lemma {:induction false} NanosByUnit(ms: seq<Match>)
    requires AllWhole(ms)
    ensures NanosOf(ms) == Nanos(UnitTotal(ms, Days), UnitTotal(ms, Hours), UnitTotal(ms, Minutes),
                                 UnitTotal(ms, Seconds), UnitTotal(ms, Millis), UnitTotal(ms, Micros))
  {
    if ms != [] {
      var m, rest := ms[0], ms[1..];
      assert forall x :: x in rest ==> x in ms;
      NanosByUnit(rest);
      var c, k := CountOf(m), UnitOf(m.unit);
      UnitTotalCons(ms, Days);
      UnitTotalCons(ms, Hours);
      UnitTotalCons(ms, Minutes);
      UnitTotalCons(ms, Seconds);
      UnitTotalCons(ms, Millis);
      UnitTotalCons(ms, Micros);
      assert NanosOf(ms) == (match k case None => 0 case Some(u) => NanosIn(c, u)) + NanosOf(rest);
      NanosCons(c, k, UnitTotal(rest, Days), UnitTotal(rest, Hours), UnitTotal(rest, Minutes),
                UnitTotal(rest, Seconds), UnitTotal(rest, Millis), UnitTotal(rest, Micros),
                UnitTotal(ms, Days), UnitTotal(ms, Hours), UnitTotal(ms, Minutes),
                UnitTotal(ms, Seconds), UnitTotal(ms, Millis), UnitTotal(ms, Micros));
    }
  }

  /** Adding one match of count `c` in unit `k` to the totals `d` … `us` gives the totals `d'` … `us'`, in nanoseconds too. */
  lemma NanosCons(c: int, k: Option<ChronoUnit>, d: int, h: int, mi: int, s: int, ms: int, us: int,
                  d': int, h': int, mi': int, s': int, ms': int, us': int)
    requires d' == Share(c, k, Days) + d && h' == Share(c, k, Hours) + h && mi' == Share(c, k, Minutes) + mi
    requires s' == Share(c, k, Seconds) + s && ms' == Share(c, k, Millis) + ms && us' == Share(c, k, Micros) + us
    ensures (match k case None => 0 case Some(u) => NanosIn(c, u)) + Nanos(d, h, mi, s, ms, us)
      == Nanos(d', h', mi', s', ms', us')
  {
    FirstShare(c, k);
    NanosAdd(Share(c, k, Days), Share(c, k, Hours), Share(c, k, Minutes),
             Share(c, k, Seconds), Share(c, k, Millis), Share(c, k, Micros), d, h, mi, s, ms, us);
  }

  lemma UnitTotalCons(ms: seq<Match>, x: ChronoUnit)
    requires AllWhole(ms) && ms != []
    ensures UnitTotal(ms, x) == Share(CountOf(ms[0]), UnitOf(ms[0].unit), x) + UnitTotal(ms[1..], x)
  {
  }

  /** What a match of count `c` in unit `k` adds to unit `x`. */
  function Share(c: int, k: Option<ChronoUnit>, x: ChronoUnit): int {
    if k == Some(x) then c else 0
  }

  /** A match's count in its unit, in nanoseconds, spread over the six units. */
  lemma FirstShare(c: int, k: Option<ChronoUnit>)
    ensures (match k case None => 0 case Some(u) => NanosIn(c, u))
      == Nanos(Share(c, k, Days), Share(c, k, Hours), Share(c, k, Minutes),
               Share(c, k, Seconds), Share(c, k, Millis), Share(c, k, Micros))
  {
  }

  /** Nanos is additive. */
  lemma NanosAdd(d: int, h: int, mi: int, s: int, ms: int, us: int,
                 d': int, h': int, mi': int, s': int, ms': int, us': int)
    ensures Nanos(d + d', h + h', mi + mi', s + s', ms + ms', us + us')
      == Nanos(d, h, mi, s, ms, us) + Nanos(d', h', mi', s', ms', us')
  {
  }

  /**
   * When no sum leaves the int range (and, for a Period, seven days a week
   * plus the days does not either), the amount is the plain arithmetic one:
   * the Period of the last year count, the months and the days, or the
   * Duration of every match in its unit.
   */
  lemma WholeAmountWithinInt(ms: seq<Match>)
    requires AllWhole(ms)
    requires forall u :: u != Years ==> UnitTotal(ms, u) <= INT_MAX
    requires AnyCalendar(ms) ==> 7 * UnitTotal(ms, Weeks) + UnitTotal(ms, Days) <= INT_MAX
    ensures WholeAmount(ms) == Ok(
      if AnyCalendar(ms) then Period(LastYears(ms, 0), UnitTotal(ms, Months), 7 * UnitTotal(ms, Weeks) + UnitTotal(ms, Days))
      else Duration(NanosOf(ms)))
  {
    assert forall u :: u != Years ==> Wrap32(UnitTotal(ms, u)) == UnitTotal(ms, u);
    CountsWithinInt(AnyCalendar(ms), LastYears(ms, 0), UnitTotal(ms, Months), UnitTotal(ms, Weeks), UnitTotal(ms, Days),
                    UnitTotal(ms, Hours), UnitTotal(ms, Minutes), UnitTotal(ms, Seconds), UnitTotal(ms, Millis), UnitTotal(ms, Micros));
    NanosByUnit(ms);
  }

  /** Counts whose Period days stay within int range amount to the Period or Duration of plain sums. */
  lemma CountsWithinInt(calendar: bool, y: int, mo: int, w: int, d: int, h: int, mi: int, s: int, ml: int, us: int)
    requires calendar ==> IsInt(y) && IsInt(mo) && 0 <= w && 0 <= d && 7 * w + d <= INT_MAX
    ensures CountsAmount(calendar, y, mo, w, d, h, mi, s, ml, us) ==
      Ok(if calendar then Period(y, mo, 7 * w + d) else Duration(Nanos(d, h, mi, s, ml, us)))
  {
    if calendar {
      assert Wrap32(7 * w) == 7 * w;
    }
  }

  /** The loop raises exactly when some match is a lone dot, and then with a NumberFormatException. */
  lemma {:induction false} FoldRaisesOnLoneDot(ms: seq<Match>, q: map<ChronoUnit, int>, usePeriod: bool)
    requires forall m :: m in ms ==> WellFormed(m)
    ensures Fold(ms, q, usePeriod).Err? <==> exists m :: m in ms && LoneDot(m)
    ensures Fold(ms, q, usePeriod).Err? ==> Fold(ms, q, usePeriod).error == NumberFormat
  {
    if ms != [] {
      var step := ApplyMatch(ms[0], q, usePeriod);
      assert ms[0] in ms;
      assert forall m :: m in ms[1..] ==> m in ms;
      assert forall m :: m in ms ==> m == ms[0] || m in ms[1..];
      if step.Ok? {
        FoldRaisesOnLoneDot(ms[1..], step.value.0, step.value.1);
      }
    }
  }

  /**
   * parseTemporalAmount raises NumberFormatException exactly when some
   * match has a lone dot for its number; the only other exception is the
   * ArithmeticException of a Period whose seven days a week plus days leave
   * the int range.
   */
  lemma ParseRaisesOnLoneDot(s: string)
    requires !EqualsIgnoreCase(NOW, s)
    ensures ParseSpec(s) == Err(NumberFormat) <==> exists m :: m in Matches(s, 0) && LoneDot(m)
    ensures ParseSpec(s).Err? ==> ParseSpec(s).error == NumberFormat || ParseSpec(s).error == Arithmetic
    ensures ParseSpec(s) == Err(Arithmetic) ==>
      var acc := Fold(Matches(s, 0), map[], false);
      acc.Ok? && acc.value.1 && !IsInt(Wrap32(7 * Get(acc.value.0, Weeks)) + Get(acc.value.0, Days))
  {
    ParseIsFold(s);
    FoldRaisesOnLoneDot(Matches(s, 0), map[], false);
    FoldKeepsIntCounts(Matches(s, 0), map[], false);
  }

  /** The amount within the int range, for sums given by name. */
  lemma WholeAmountOf(ms: seq<Match>, y: int, mo: int, w: int, d: int, nanos: int)
    requires AllWhole(ms)
    requires y == LastYears(ms, 0) && mo == UnitTotal(ms, Months) && w == UnitTotal(ms, Weeks) && d == UnitTotal(ms, Days)
    requires nanos == NanosOf(ms)
    requires forall u :: u != Years ==> UnitTotal(ms, u) <= INT_MAX
    requires AnyCalendar(ms) ==> 7 * w + d <= INT_MAX
    ensures WholeAmount(ms) == Ok(if AnyCalendar(ms) then Period(y, mo, 7 * w + d) else Duration(nanos))
  {
    WholeAmountWithinInt(ms);
  }
}
