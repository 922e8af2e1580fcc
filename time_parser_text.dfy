/**
 * The text format writes, read back by parseTemporalAmount: the matches of
 * the pattern on counts followed by unit words, and the round trips
 * between format and parseTemporalAmount.
 */
module TimeParserText {
  import opened Wrappers
  import opened JavaText
  import opened TimeParser
  import opened TimeParserProps

  // ---- the pattern on a known unit word ----

  predicate IsLowerWord(w: string) { forall c :: c in w ==> 'a' <= c <= 'z' }

  /** Alternative `u` of the unit group is a prefix of `w`. */
  predicate IsPrefixOf(u: string, w: string) { |u| <= |w| && u == w[..|u|] }

  /**
   * A lower-case word the unit group matches as a whole: on the word alone,
   * the first alternative that matches is the word itself.
   */
  predicate OwnUnit(w: string) { w != [] && IsLowerWord(w) && FirstUnit(w, 0, 0) == Some(w) }

  lemma UnitWordLower(k: nat)
    requires k < UNIT_COUNT
    ensures IsLowerWord(UnitWord(k))
  {
  }

  /** `t` holds `w` at index `i`, followed by a space or the end. */
  predicate WordAt(t: string, i: nat, w: string) {
    i + |w| <= |t| && t[i..i + |w|] == w && (i + |w| == |t| || t[i + |w|] == ' ')
  }

  /** At a lower-case word followed by a space or the end, a lower-case alternative matches exactly when it is a prefix of the word. */
  lemma FoldedAtWord(t: string, i: nat, w: string, x: string)
    requires WordAt(t, i, w) && IsLowerWord(w) && IsLowerWord(x)
    ensures FoldedAt(t, i, x) <==> IsPrefixOf(x, w)
  {
    forall j | 0 <= j < |w| ensures LowerChar(t[i + j]) == w[j] {
      assert t[i + j] == t[i..i + |w|][j] == w[j] && w[j] in w;
    }
    if |x| <= |w| {
      if FoldedAt(t, i, x) {
        assert forall j :: 0 <= j < |x| ==> x[j] == w[..|x|][j];
      }
    } else if i + |x| <= |t| {
      assert x[|w|] in x;
      assert LowerChar(t[i + |w|]) != x[|w|];
    }
  }

  /** At a lower-case word followed by a space or the end, the unit group fares as on the word alone. */
  lemma {:induction false} FirstUnitAtWord(t: string, i: nat, w: string, k: nat)
    requires WordAt(t, i, w) && IsLowerWord(w)
    ensures FirstUnit(t, i, k) == FirstUnit(w, 0, k)
    decreases UNIT_COUNT - k
  {
    if k < UNIT_COUNT {
      UnitWordLower(k);
      FoldedAtWord(t, i, w, UnitWord(k));
      assert w[0..|w|] == w;
      FoldedAtWord(w, 0, w, UnitWord(k));
      FirstUnitAtWord(t, i, w, k + 1);
    }
  }

  /** At a word the unit group matches as a whole, followed by a space or the end, the unit group matches that word. */
  lemma OwnWordFirst(t: string, i: nat, w: string)
    requires OwnUnit(w) && WordAt(t, i, w)
    ensures FirstUnit(t, i, 0) == Some(w)
  {
    FirstUnitAtWord(t, i, w, 0);
  }

  lemma LowerWordFolded(w: string)
    requires IsLowerWord(w)
    ensures FoldedAt(w, 0, w)
  {
    forall i | 0 <= i < |w| ensures LowerChar(w[i]) == w[i] {
      assert w[i] in w;
    }
  }

  /** On the word alone, alternative `j` is the first match from `k` on when the ones between miss. */
  lemma {:induction false} FirstUnitFrom(w: string, k: nat, j: nat)
    requires k <= j < UNIT_COUNT && FoldedAt(w, 0, UnitWord(j))
    requires forall x :: k <= x < j ==> !FoldedAt(w, 0, UnitWord(x))
    ensures FirstUnit(w, 0, k) == Some(UnitWord(j))
    decreases j - k
  {
    if k < j {
      FirstUnitFrom(w, k + 1, j);
    }
  }

  lemma OwnUnitYear()
    ensures OwnUnit("year")
  {
    var w := "year";
    forall x | 0 <= x < 25 ensures !FoldedAt(w, 0, UnitWord(x)) {
      if x == 0 {
        assert |UnitWord(0)| > |w|;
      } else if x == 1 {
        assert LowerChar(w[0]) != UnitWord(1)[0];
      } else if x == 2 {
        assert |UnitWord(2)| > |w|;
      } else if x == 3 {
        assert |UnitWord(3)| > |w|;
      } else if x == 4 {
        assert LowerChar(w[0]) != UnitWord(4)[0];
      } else if x == 5 {
        assert LowerChar(w[0]) != UnitWord(5)[0];
      } else if x == 6 {
        assert LowerChar(w[0]) != UnitWord(6)[0];
      } else if x == 7 {
        assert |UnitWord(7)| > |w|;
      } else if x == 8 {
        assert |UnitWord(8)| > |w|;
      } else if x == 9 {
        assert LowerChar(w[0]) != UnitWord(9)[0];
      } else if x == 10 {
        assert LowerChar(w[0]) != UnitWord(10)[0];
      } else if x == 11 {
        assert |UnitWord(11)| > |w|;
      } else if x == 12 {
        assert LowerChar(w[0]) != UnitWord(12)[0];
      } else if x == 13 {
        assert LowerChar(w[0]) != UnitWord(13)[0];
      } else if x == 14 {
        assert LowerChar(w[0]) != UnitWord(14)[0];
      } else if x == 15 {
        assert LowerChar(w[0]) != UnitWord(15)[0];
      } else if x == 16 {
        assert LowerChar(w[0]) != UnitWord(16)[0];
      } else if x == 17 {
        assert |UnitWord(17)| > |w|;
      } else if x == 18 {
        assert LowerChar(w[0]) != UnitWord(18)[0];
      } else if x == 19 {
        assert LowerChar(w[0]) != UnitWord(19)[0];
      } else if x == 20 {
        assert |UnitWord(20)| > |w|;
      } else if x == 21 {
        assert |UnitWord(21)| > |w|;
      } else if x == 22 {
        assert LowerChar(w[0]) != UnitWord(22)[0];
      } else if x == 23 {
        assert LowerChar(w[0]) != UnitWord(23)[0];
      } else {
        assert |UnitWord(24)| > |w|;
      }
    }
    assert UnitWord(25) == w;
    LowerWordFolded(w);
    FirstUnitFrom(w, 0, 25);
  }

  lemma OwnUnitYears()
    ensures OwnUnit("years")
  {
    var w := "years";
    assert LowerChar(w[0]) == 'y';
    forall x | 0 <= x < 24 ensures !FoldedAt(w, 0, UnitWord(x)) {
      assert UnitWord(x)[0] != 'y';
    }
    assert UnitWord(24) == w;
    LowerWordFolded(w);
    FirstUnitFrom(w, 0, 24);
  }

  lemma OwnUnitMonth()
    ensures OwnUnit("month")
  {
    var w := "month";
    forall x | 0 <= x < 21 ensures !FoldedAt(w, 0, UnitWord(x)) {
      if x == 0 {
        assert |UnitWord(0)| > |w|;
      } else if x == 1 {
        assert LowerChar(w[1]) != UnitWord(1)[1];
      } else if x == 2 {
        assert |UnitWord(2)| > |w|;
      } else if x == 3 {
        assert |UnitWord(3)| > |w|;
      } else if x == 4 {
        assert LowerChar(w[0]) != UnitWord(4)[0];
      } else if x == 5 {
        assert LowerChar(w[0]) != UnitWord(5)[0];
      } else if x == 6 {
        assert LowerChar(w[0]) != UnitWord(6)[0];
      } else if x == 7 {
        assert |UnitWord(7)| > |w|;
      } else if x == 8 {
        assert |UnitWord(8)| > |w|;
      } else if x == 9 {
        assert LowerChar(w[1]) != UnitWord(9)[1];
      } else if x == 10 {
        assert LowerChar(w[1]) != UnitWord(10)[1];
      } else if x == 11 {
        assert LowerChar(w[0]) != UnitWord(11)[0];
      } else if x == 12 {
        assert LowerChar(w[0]) != UnitWord(12)[0];
      } else if x == 13 {
        assert LowerChar(w[0]) != UnitWord(13)[0];
      } else if x == 14 {
        assert LowerChar(w[0]) != UnitWord(14)[0];
      } else if x == 15 {
        assert LowerChar(w[0]) != UnitWord(15)[0];
      } else if x == 16 {
        assert LowerChar(w[0]) != UnitWord(16)[0];
      } else if x == 17 {
        assert LowerChar(w[0]) != UnitWord(17)[0];
      } else if x == 18 {
        assert LowerChar(w[0]) != UnitWord(18)[0];
      } else if x == 19 {
        assert LowerChar(w[0]) != UnitWord(19)[0];
      } else {
        assert |UnitWord(20)| > |w|;
      }
    }
    assert UnitWord(21) == w;
    LowerWordFolded(w);
    FirstUnitFrom(w, 0, 21);
  }

  lemma OwnUnitMonths()
    ensures OwnUnit("months")
  {
    var w := "months";
    assert LowerChar(w[0]) == 'm' && LowerChar(w[1]) == 'o';
    forall x | 0 <= x < 20 ensures !FoldedAt(w, 0, UnitWord(x)) {
      if x in {0, 1, 7, 8, 9, 10} {
        assert UnitWord(x)[1] != 'o';
      } else {
        assert UnitWord(x)[0] != 'm';
      }
    }
    assert UnitWord(20) == w;
    LowerWordFolded(w);
    FirstUnitFrom(w, 0, 20);
  }

  lemma OwnUnitWeeks()
    ensures OwnUnit("weeks")
  {
    var w := "weeks";
    forall x | 0 <= x < 17 ensures !FoldedAt(w, 0, UnitWord(x)) {
      if x == 0 {
        assert |UnitWord(0)| > |w|;
      } else if x == 1 {
        assert LowerChar(w[0]) != UnitWord(1)[0];
      } else if x == 2 {
        assert |UnitWord(2)| > |w|;
      } else if x == 3 {
        assert |UnitWord(3)| > |w|;
      } else if x == 4 {
        assert LowerChar(w[0]) != UnitWord(4)[0];
      } else if x == 5 {
        assert LowerChar(w[0]) != UnitWord(5)[0];
      } else if x == 6 {
        assert LowerChar(w[0]) != UnitWord(6)[0];
      } else if x == 7 {
        assert |UnitWord(7)| > |w|;
      } else if x == 8 {
        assert |UnitWord(8)| > |w|;
      } else if x == 9 {
        assert LowerChar(w[0]) != UnitWord(9)[0];
      } else if x == 10 {
        assert LowerChar(w[0]) != UnitWord(10)[0];
      } else if x == 11 {
        assert LowerChar(w[0]) != UnitWord(11)[0];
      } else if x == 12 {
        assert LowerChar(w[0]) != UnitWord(12)[0];
      } else if x == 13 {
        assert LowerChar(w[0]) != UnitWord(13)[0];
      } else if x == 14 {
        assert LowerChar(w[0]) != UnitWord(14)[0];
      } else if x == 15 {
        assert LowerChar(w[0]) != UnitWord(15)[0];
      } else {
        assert LowerChar(w[0]) != UnitWord(16)[0];
      }
    }
    assert UnitWord(17) == w;
    LowerWordFolded(w);
    FirstUnitFrom(w, 0, 17);
  }

  lemma OwnUnitDay()
    ensures OwnUnit("day")
  {
    var w := "day";
    forall x | 0 <= x < 15 ensures !FoldedAt(w, 0, UnitWord(x)) {
      if x == 0 {
        assert |UnitWord(0)| > |w|;
      } else if x == 1 {
        assert LowerChar(w[0]) != UnitWord(1)[0];
      } else if x == 2 {
        assert |UnitWord(2)| > |w|;
      } else if x == 3 {
        assert |UnitWord(3)| > |w|;
      } else if x == 4 {
        assert |UnitWord(4)| > |w|;
      } else if x == 5 {
        assert LowerChar(w[0]) != UnitWord(5)[0];
      } else if x == 6 {
        assert LowerChar(w[0]) != UnitWord(6)[0];
      } else if x == 7 {
        assert |UnitWord(7)| > |w|;
      } else if x == 8 {
        assert |UnitWord(8)| > |w|;
      } else if x == 9 {
        assert |UnitWord(9)| > |w|;
      } else if x == 10 {
        assert LowerChar(w[0]) != UnitWord(10)[0];
      } else if x == 11 {
        assert |UnitWord(11)| > |w|;
      } else if x == 12 {
        assert |UnitWord(12)| > |w|;
      } else if x == 13 {
        assert LowerChar(w[0]) != UnitWord(13)[0];
      } else {
        assert |UnitWord(14)| > |w|;
      }
    }
    assert UnitWord(15) == w;
    LowerWordFolded(w);
    FirstUnitFrom(w, 0, 15);
  }

  lemma OwnUnitDays()
    ensures OwnUnit("days")
  {
    var w := "days";
    forall x | 0 <= x < 14 ensures !FoldedAt(w, 0, UnitWord(x)) {
      if x == 0 {
        assert |UnitWord(0)| > |w|;
      } else if x == 1 {
        assert LowerChar(w[0]) != UnitWord(1)[0];
      } else if x == 2 {
        assert |UnitWord(2)| > |w|;
      } else if x == 3 {
        assert |UnitWord(3)| > |w|;
      } else if x == 4 {
        assert LowerChar(w[0]) != UnitWord(4)[0];
      } else if x == 5 {
        assert LowerChar(w[0]) != UnitWord(5)[0];
      } else if x == 6 {
        assert LowerChar(w[0]) != UnitWord(6)[0];
      } else if x == 7 {
        assert |UnitWord(7)| > |w|;
      } else if x == 8 {
        assert |UnitWord(8)| > |w|;
      } else if x == 9 {
        assert LowerChar(w[0]) != UnitWord(9)[0];
      } else if x == 10 {
        assert LowerChar(w[0]) != UnitWord(10)[0];
      } else if x == 11 {
        assert |UnitWord(11)| > |w|;
      } else if x == 12 {
        assert LowerChar(w[0]) != UnitWord(12)[0];
      } else {
        assert LowerChar(w[0]) != UnitWord(13)[0];
      }
    }
    assert UnitWord(14) == w;
    LowerWordFolded(w);
    FirstUnitFrom(w, 0, 14);
  }

  lemma OwnUnitHour()
    ensures OwnUnit("hour")
  {
    var w := "hour";
    forall x | 0 <= x < 12 ensures !FoldedAt(w, 0, UnitWord(x)) {
      if x == 0 {
        assert |UnitWord(0)| > |w|;
      } else if x == 1 {
        assert LowerChar(w[0]) != UnitWord(1)[0];
      } else if x == 2 {
        assert |UnitWord(2)| > |w|;
      } else if x == 3 {
        assert |UnitWord(3)| > |w|;
      } else if x == 4 {
        assert LowerChar(w[0]) != UnitWord(4)[0];
      } else if x == 5 {
        assert LowerChar(w[0]) != UnitWord(5)[0];
      } else if x == 6 {
        assert LowerChar(w[0]) != UnitWord(6)[0];
      } else if x == 7 {
        assert |UnitWord(7)| > |w|;
      } else if x == 8 {
        assert |UnitWord(8)| > |w|;
      } else if x == 9 {
        assert LowerChar(w[0]) != UnitWord(9)[0];
      } else if x == 10 {
        assert LowerChar(w[0]) != UnitWord(10)[0];
      } else {
        assert |UnitWord(11)| > |w|;
      }
    }
    assert UnitWord(12) == w;
    LowerWordFolded(w);
    FirstUnitFrom(w, 0, 12);
  }

  lemma OwnUnitHours()
    ensures OwnUnit("hours")
  {
    var w := "hours";
    forall x | 0 <= x < 11 ensures !FoldedAt(w, 0, UnitWord(x)) {
      if x == 0 {
        assert |UnitWord(0)| > |w|;
      } else if x == 1 {
        assert LowerChar(w[0]) != UnitWord(1)[0];
      } else if x == 2 {
        assert |UnitWord(2)| > |w|;
      } else if x == 3 {
        assert |UnitWord(3)| > |w|;
      } else if x == 4 {
        assert LowerChar(w[0]) != UnitWord(4)[0];
      } else if x == 5 {
        assert LowerChar(w[0]) != UnitWord(5)[0];
      } else if x == 6 {
        assert LowerChar(w[0]) != UnitWord(6)[0];
      } else if x == 7 {
        assert |UnitWord(7)| > |w|;
      } else if x == 8 {
        assert |UnitWord(8)| > |w|;
      } else if x == 9 {
        assert LowerChar(w[0]) != UnitWord(9)[0];
      } else {
        assert LowerChar(w[0]) != UnitWord(10)[0];
      }
    }
    assert UnitWord(11) == w;
    LowerWordFolded(w);
    FirstUnitFrom(w, 0, 11);
  }

  lemma OwnUnitMinute()
    ensures OwnUnit("minute")
  {
    var w := "minute";
    forall x | 0 <= x < 8 ensures !FoldedAt(w, 0, UnitWord(x)) {
      if x == 0 {
        assert LowerChar(w[2]) != UnitWord(0)[2];
      } else if x == 1 {
        assert LowerChar(w[1]) != UnitWord(1)[1];
      } else if x == 2 {
        assert |UnitWord(2)| > |w|;
      } else if x == 3 {
        assert LowerChar(w[0]) != UnitWord(3)[0];
      } else if x == 4 {
        assert LowerChar(w[0]) != UnitWord(4)[0];
      } else if x == 5 {
        assert LowerChar(w[0]) != UnitWord(5)[0];
      } else if x == 6 {
        assert LowerChar(w[0]) != UnitWord(6)[0];
      } else {
        assert |UnitWord(7)| > |w|;
      }
    }
    assert UnitWord(8) == w;
    LowerWordFolded(w);
    FirstUnitFrom(w, 0, 8);
  }

  lemma OwnUnitMinutes()
    ensures OwnUnit("minutes")
  {
    var w := "minutes";
    forall x | 0 <= x < 7 ensures !FoldedAt(w, 0, UnitWord(x)) {
      if x == 0 {
        assert LowerChar(w[2]) != UnitWord(0)[2];
      } else if x == 1 {
        assert LowerChar(w[1]) != UnitWord(1)[1];
      } else if x == 2 {
        assert LowerChar(w[0]) != UnitWord(2)[0];
      } else if x == 3 {
        assert LowerChar(w[0]) != UnitWord(3)[0];
      } else if x == 4 {
        assert LowerChar(w[0]) != UnitWord(4)[0];
      } else if x == 5 {
        assert LowerChar(w[0]) != UnitWord(5)[0];
      } else {
        assert LowerChar(w[0]) != UnitWord(6)[0];
      }
    }
    assert UnitWord(7) == w;
    LowerWordFolded(w);
    FirstUnitFrom(w, 0, 7);
  }

  lemma OwnUnitMins()
    ensures OwnUnit("mins")
  {
    var w := "mins";
    forall x | 0 <= x < 9 ensures !FoldedAt(w, 0, UnitWord(x)) {
      if x == 0 {
        assert |UnitWord(0)| > |w|;
      } else if x == 1 {
        assert LowerChar(w[1]) != UnitWord(1)[1];
      } else if x == 2 {
        assert |UnitWord(2)| > |w|;
      } else if x == 3 {
        assert |UnitWord(3)| > |w|;
      } else if x == 4 {
        assert LowerChar(w[0]) != UnitWord(4)[0];
      } else if x == 5 {
        assert LowerChar(w[0]) != UnitWord(5)[0];
      } else if x == 6 {
        assert LowerChar(w[0]) != UnitWord(6)[0];
      } else if x == 7 {
        assert |UnitWord(7)| > |w|;
      } else {
        assert |UnitWord(8)| > |w|;
      }
    }
    assert UnitWord(9) == w;
    LowerWordFolded(w);
    FirstUnitFrom(w, 0, 9);
  }

  lemma OwnUnitSecond()
    ensures OwnUnit("second")
  {
    var w := "second";
    forall x | 0 <= x < 3 ensures !FoldedAt(w, 0, UnitWord(x)) {
      if x == 0 {
        assert LowerChar(w[0]) != UnitWord(0)[0];
      } else if x == 1 {
        assert LowerChar(w[0]) != UnitWord(1)[0];
      } else {
        assert |UnitWord(2)| > |w|;
      }
    }
    assert UnitWord(3) == w;
    LowerWordFolded(w);
    FirstUnitFrom(w, 0, 3);
  }

  lemma OwnUnitSeconds()
    ensures OwnUnit("seconds")
  {
    var w := "seconds";
    forall x | 0 <= x < 2 ensures !FoldedAt(w, 0, UnitWord(x)) {
      if x == 0 {
        assert LowerChar(w[0]) != UnitWord(0)[0];
      } else {
        assert LowerChar(w[0]) != UnitWord(1)[0];
      }
    }
    assert UnitWord(2) == w;
    LowerWordFolded(w);
    FirstUnitFrom(w, 0, 2);
  }

  lemma OwnUnitSec()
    ensures OwnUnit("sec")
  {
    var w := "sec";
    forall x | 0 <= x < 5 ensures !FoldedAt(w, 0, UnitWord(x)) {
      if x == 0 {
        assert |UnitWord(0)| > |w|;
      } else if x == 1 {
        assert LowerChar(w[0]) != UnitWord(1)[0];
      } else if x == 2 {
        assert |UnitWord(2)| > |w|;
      } else if x == 3 {
        assert |UnitWord(3)| > |w|;
      } else {
        assert |UnitWord(4)| > |w|;
      }
    }
    assert UnitWord(5) == w;
    LowerWordFolded(w);
    FirstUnitFrom(w, 0, 5);
  }

  lemma OwnUnitMs()
    ensures OwnUnit("ms")
  {
    var w := "ms";
    forall x | 0 <= x < 1 ensures !FoldedAt(w, 0, UnitWord(x)) {
      assert |UnitWord(0)| > |w|;
    }
    assert UnitWord(1) == w;
    LowerWordFolded(w);
    FirstUnitFrom(w, 0, 1);
  }

  lemma OwnUnitMillis()
    ensures OwnUnit("millis")
  {
    var w := "millis";
    assert UnitWord(0) == w;
    LowerWordFolded(w);
    FirstUnitFrom(w, 0, 0);
  }


  lemma {:induction false} ScanDigits(t: string, at: nat, d: string, j: nat)
    requires at + |d| <= |t| && t[at..at + |d|] == d && AllDigits(d) && j <= |d|
    ensures AllDigits(d[..j])
    ensures Scan(t, at, Whole, at + j, d[..j], false, []) == Scan(t, at, Whole, at + |d|, d, false, [])
    decreases |d| - j
  {
    assert forall c :: c in d[..j] ==> c in d;
    if j < |d| {
      assert t[at + j] == t[at..at + |d|][j] == d[j];
      assert d[j] in d;
      assert d[..j] + [d[j]] == d[..j + 1];
      ScanDigits(t, at, d, j + 1);
    } else {
      assert d[..j] == d;
    }
  }

  /** A space after group 1 ends it. */
  lemma WholeAtSpace(t: string, at: nat, i: nat, whole: string)
    requires at <= i < |t| && t[i] == ' ' && AllDigits(whole)
    ensures Scan(t, at, Whole, i, whole, false, []) == Scan(t, at, Gap, i + 1, whole, false, [])
  {
    assert Scan(t, at, Whole, i, whole, false, []) == Scan(t, at, Gap, i, whole, false, []);
  }

  /** A unit word found after group 1 and the spaces: the match ends after the word and the spaces that follow it. */
  lemma GapAtWord(t: string, at: nat, i: nat, whole: string, w: string, len: int)
    requires at <= i < |t| && !IsRegexSpace(t[i]) && AllDigits(whole) && FirstUnit(t, i, 0) == Some(w)
    requires len == i + |w| + SpaceRun(t, i + |w|) - at
    ensures Scan(t, at, Gap, i, whole, false, []) == Some(Match(len, whole, false, [], w))
  {
  }

  /** After group 1, a space and a unit word: the match ends after the word and the spaces that follow it. */
  lemma ScanGap(t: string, at: nat, d: string, w: string, len: int)
    requires AllDigits(d)
    requires var i := at + |d| + 1; i < |t| && t[i - 1] == ' ' && 'a' <= t[i] <= 'z' && FirstUnit(t, i, 0) == Some(w)
    requires len == at + |d| + 1 + |w| + SpaceRun(t, at + |d| + 1 + |w|) - at
    ensures Scan(t, at, Whole, at + |d|, d, false, []) == Some(Match(len, d, false, [], w))
  {
    WholeAtSpace(t, at, at + |d|, d);
    GapAtWord(t, at, at + |d| + 1, d, w, len);
  }

  /** Leading spaces end where group 1 starts with a digit. */
  lemma LeadAtDigit(t: string, at: nat)
    requires at < |t| && IsDigit(t[at])
    ensures Scan(t, at, Lead, at, [], false, []) == Scan(t, at, Whole, at, [], false, [])
  {
  }

  /** The pattern at digits `d`, a space and a unit word found there, followed by `len - |d| - 1 - |w|` spaces. */
  lemma {:induction false} ScanPiece(t: string, at: nat, d: string, w: string, len: int)
    requires AllDigits(d) && d != [] && at + |d| + 1 < |t| && t[at..at + |d|] == d && t[at + |d|] == ' '
    requires 'a' <= t[at + |d| + 1] <= 'z' && FirstUnit(t, at + |d| + 1, 0) == Some(w)
    requires len == |d| + 1 + |w| + SpaceRun(t, at + |d| + 1 + |w|)
    ensures MatchAt(t, at) == Some(Match(len, d, false, [], w))
  {
    assert t[at] == t[at..at + |d|][0] == d[0] && d[0] in d;
    LeadAtDigit(t, at);
    ScanDigits(t, at, d, 0);
    assert d[..0] == [];
    ScanGap(t, at, d, w, len);
  }

  lemma SpaceRunAfterWord(t: string, e: nat)
    requires e <= |t| && (e == |t| || (t[e] == ' ' && (e + 1 == |t| || !IsRegexSpace(t[e + 1]))))
    ensures SpaceRun(t, e) == if e == |t| then 0 else 1
  {
    if e < |t| {
      assert SpaceRun(t, e) == 1 + SpaceRun(t, e + 1);
    }
  }

  /** Digits, a space and a word written from `at` on: where each of them stands. */
  lemma PieceSlices(t: string, at: nat, d: string, w: string, e: nat)
    requires e == at + |d| + 1 + |w| && e <= |t| && t[at..e] == d + " " + w && d != [] && w != []
    ensures t[at..at + |d|] == d && t[at + |d|] == ' ' && t[at + |d| + 1..e] == w && t[at + |d| + 1] == w[0]
  {
    var piece := t[at..e];
    assert t[at..at + |d|] == piece[..|d|] == d;
    assert t[at + |d|] == piece[|d|] == ' ';
    assert t[at + |d| + 1..e] == piece[|d| + 1..] == w;
  }

  /** The pattern at digits, a space and a unit word: the digits are group 1 and the word the unit. */
  lemma {:induction false} PieceMatchAt(t: string, at: nat, d: string, w: string, e: nat)
    requires AllDigits(d) && d != [] && IsLowerWord(w) && w != []
    requires e == at + |d| + 1 + |w| && e <= |t| && FirstUnit(t, at + |d| + 1, 0) == Some(w)
    requires t[at..at + |d|] == d && t[at + |d|] == ' ' && t[at + |d| + 1] == w[0]
    requires e == |t| || (t[e] == ' ' && (e + 1 == |t| || !IsRegexSpace(t[e + 1])))
    ensures MatchAt(t, at) == Some(Match(|d| + 1 + |w| + (if e == |t| then 0 else 1), d, false, [], w))
  {
    assert w[0] in w;
    SpaceRunAfterWord(t, e);
    ScanPiece(t, at, d, w, |d| + 1 + |w| + (if e == |t| then 0 else 1));
  }

  // ---- texts made of counted unit words ----

  /** A count and the unit word written after it. */
  datatype Piece = Piece(count: nat, word: string)

  function PieceText(p: Piece): string { NatToString(p.count) + " " + p.word }

  /** The pieces, each followed by a space. */
  function Spaced(ps: seq<Piece>): (r: string)
    ensures ps != [] ==> |r| > 0 && r[|r| - 1] == ' '
  {
    if ps == [] then "" else PieceText(ps[0]) + " " + Spaced(ps[1..])
  }

  /** The pieces separated by single spaces. */
  function Joined(ps: seq<Piece>): string {
    if ps == [] then ""
    else if |ps| == 1 then PieceText(ps[0])
    else PieceText(ps[0]) + " " + Joined(ps[1..])
  }

  /** Every piece has a non-empty lower-case word. */
  predicate Plain(ps: seq<Piece>) {
    forall i :: 0 <= i < |ps| ==> ps[i].word != [] && IsLowerWord(ps[i].word)
  }

  /** Every piece is a count within int range and a word the unit group matches as a whole. */
  predicate Writable(ps: seq<Piece>) {
    Plain(ps) && forall i :: 0 <= i < |ps| ==> OwnUnit(ps[i].word) && ps[i].count <= INT_MAX
  }

  lemma PlainTail(ps: seq<Piece>)
    requires ps != [] && Plain(ps)
    ensures Plain(ps[1..]) && ps[0].word != [] && IsLowerWord(ps[0].word)
  {
    forall i | 0 <= i < |ps[1..]| ensures ps[1..][i].word != [] && IsLowerWord(ps[1..][i].word) {
      assert ps[1..][i] == ps[i + 1];
    }
  }

  lemma JoinedEnds(ps: seq<Piece>)
    requires ps != [] && Plain(ps)
    ensures var j := Joined(ps); |j| > 0 && IsDigit(j[0]) && 'a' <= j[|j| - 1] <= 'z'
    decreases |ps|
  {
    var d := NatToString(ps[0].count);
    assert d[0] in d;
    assert Joined(ps)[0] == d[0];
    PlainTail(ps);
    var w := ps[0].word;
    assert w[|w| - 1] in w;
    if |ps| > 1 {
      JoinedEnds(ps[1..]);
    }
  }

  /** The matches of the pattern in text holding the pieces from `at` to the end: one per piece. */
  function PieceMatches(ps: seq<Piece>): seq<Match> {
    if ps == [] then []
    else [FirstPieceMatch(ps)] + PieceMatches(ps[1..])
  }

  lemma WritableTail(ps: seq<Piece>)
    requires ps != [] && Writable(ps)
    ensures Writable(ps[1..]) && OwnUnit(ps[0].word) && ps[0].count <= INT_MAX
  {
    PlainTail(ps);
    forall i | 0 <= i < |ps[1..]| ensures OwnUnit(ps[1..][i].word) && ps[1..][i].count <= INT_MAX {
      assert ps[1..][i] == ps[i + 1];
    }
  }

  /** The text of pieces: the first piece's text, then nothing or a space and the others. */
  lemma JoinedSplit(ps: seq<Piece>)
    requires ps != []
    ensures Joined(ps) == PieceText(ps[0]) + (if |ps| == 1 then "" else " " + Joined(ps[1..]))
  {
  }

  /** Digits, a space and a word at `at`, followed by the end of the text or by a space and a digit. */
  lemma HeadLayout(t: string, at: nat, d: string, w: string, e: nat)
    requires d != [] && w != [] && e == at + |d| + 1 + |w| && e <= |t| && t[at..e] == d + " " + w
    requires e == |t| || (t[e..][0] == ' ' && |t[e..]| > 1 && IsDigit(t[e..][1]))
    ensures t[at..at + |d|] == d && t[at + |d|] == ' ' && t[at + |d| + 1] == w[0] && WordAt(t, at + |d| + 1, w)
    ensures e < |t| ==> t[e] == ' ' && e + 1 < |t| && IsDigit(t[e + 1])
  {
    PieceSlices(t, at, d, w, e);
    if e < |t| {
      assert t[e] == t[e..][0] && t[e + 1] == t[e..][1];
    }
  }

  /** Where a piece's digits and word, the space after it and the rest stand in text holding them from `at` to the end. */
  lemma PieceLayout(t: string, at: nat, d: string, w: string, j: string, last: bool, e: nat)
    requires d != [] && w != [] && e == at + |d| + 1 + |w| && at <= |t|
    requires t[at..] == d + " " + w + (if last then "" else " " + j)
    requires !last ==> j != [] && IsDigit(j[0])
    ensures e <= |t| && t[at..at + |d|] == d && t[at + |d|] == ' ' && t[at + |d| + 1] == w[0] && WordAt(t, at + |d| + 1, w)
    ensures e == |t| <==> last
    ensures e < |t| ==> t[e] == ' ' && e + 1 < |t| && IsDigit(t[e + 1])
    ensures t[e + (if last then 0 else 1)..] == if last then "" else j
  {
    var rest := if last then "" else " " + j;
    assert t[at..e] == t[at..][..e - at];
    assert t[e..] == t[at..][e - at..] == rest;
    if !last {
      assert t[e + 1..] == t[e..][1..];
    }
    HeadLayout(t, at, d, w, e);
  }

  /** No match in the empty rest of the text. */
  lemma MatchesAtEnd(t: string)
    ensures Matches(t, |t|) == []
  {
    assert Scan(t, |t|, Lead, |t|, [], false, []) == Scan(t, |t|, Gap, |t|, [], false, []);
    assert MatchAt(t, |t|) == None;
  }

  /** Digits, a space and a word written from `at` on are what the matcher finds there. */
  lemma PieceFind(t: string, at: nat, d: string, w: string, e: nat, next: nat)
    requires OwnUnit(w) && AllDigits(d) && d != [] && e == at + |d| + 1 + |w| && e <= |t|
    requires t[at..at + |d|] == d && t[at + |d|] == ' ' && WordAt(t, at + |d| + 1, w)
    requires e < |t| ==> t[e] == ' ' && e + 1 < |t| && IsDigit(t[e + 1])
    requires next == e + (if e == |t| then 0 else 1)
    ensures Find(t, at) == Some((at, Match(next - at, d, false, [], w)))
  {
    var i := at + |d| + 1;
    assert t[i] == t[i..i + |w|][0];
    OwnWordFirst(t, i, w);
    PieceMatchAt(t, at, d, w, e);
  }

  /** The match of the first piece, and where the text of the other pieces starts. */
  function FirstPieceMatch(ps: seq<Piece>): Match
    requires ps != []
  {
    Match(|PieceText(ps[0])| + (if |ps| == 1 then 0 else 1), NatToString(ps[0].count), false, [], ps[0].word)
  }

  /** The text of the first piece, laid out as the matcher meets it, and its match. */
  lemma FirstPieceAt(t: string, at: nat, ps: seq<Piece>, d: string, w: string, e: nat, next: nat)
    requires ps != [] && Plain(ps) && at <= |t| && t[at..] == Joined(ps)
    requires d == NatToString(ps[0].count) && w == ps[0].word && e == at + |d| + 1 + |w|
    requires next == e + (if |ps| == 1 then 0 else 1)
    ensures e <= |t| && t[at..at + |d|] == d && t[at + |d|] == ' ' && WordAt(t, at + |d| + 1, w)
    ensures e < |t| ==> t[e] == ' ' && e + 1 < |t| && IsDigit(t[e + 1])
    ensures next == e + (if e == |t| then 0 else 1) && t[next..] == Joined(ps[1..])
    ensures FirstPieceMatch(ps) == Match(next - at, d, false, [], w)
  {
    PlainTail(ps);
    JoinedSplit(ps);
    if |ps| > 1 {
      JoinedEnds(ps[1..]);
    }
    PieceLayout(t, at, d, w, Joined(ps[1..]), |ps| == 1, e);
    assert |PieceText(ps[0])| == |d| + 1 + |w|;
  }

  /** One round of the matcher over the text of the pieces: it matches the first piece and goes on after it. */
  lemma PieceStep(t: string, at: nat, ps: seq<Piece>)
    requires ps != [] && Writable(ps) && at <= |t| && t[at..] == Joined(ps)
    ensures var next := at + FirstPieceMatch(ps).length;
      next <= |t| && t[next..] == Joined(ps[1..]) && Matches(t, at) == [FirstPieceMatch(ps)] + Matches(t, next)
  {
    var d := NatToString(ps[0].count);
    var w := ps[0].word;
    var e := at + |d| + 1 + |w|;
    var next := e + (if |ps| == 1 then 0 else 1);
    WritableTail(ps);
    FirstPieceAt(t, at, ps, d, w, e, next);
    PieceFind(t, at, d, w, e, next);
    MatchesStep(t, at, at, FirstPieceMatch(ps));
  }

  /** The matcher finds one match per piece, with the count as group 1 and the word as the unit. */
  lemma {:induction false} MatchesOfJoined(t: string, at: nat, ps: seq<Piece>)
    requires Writable(ps) && at <= |t| && t[at..] == Joined(ps)
    ensures Matches(t, at) == PieceMatches(ps)
    decreases |ps|
  {
    if ps == [] {
      assert at == |t|;
      MatchesAtEnd(t);
    } else {
      PieceStep(t, at, ps);
      WritableTail(ps);
      MatchesOfJoined(t, at + FirstPieceMatch(ps).length, ps[1..]);
    }
  }

  // ---- what the pieces add up to ----

  /** The sum of the counts of the pieces in unit `u`. */
  function PieceTotal(ps: seq<Piece>, u: ChronoUnit): int {
    if ps == [] then 0 else (if UnitOf(ps[0].word) == Some(u) then ps[0].count else 0) + PieceTotal(ps[1..], u)
  }

  /** Some piece is in years, months or weeks. */
  predicate PieceCalendar(ps: seq<Piece>) {
    ps != [] && ((UnitOf(ps[0].word).Some? && IsCalendarUnit(UnitOf(ps[0].word).value)) || PieceCalendar(ps[1..]))
  }

  /** The count of the last piece in years, or `prior`. */
  function PieceLastYears(ps: seq<Piece>, prior: int): int {
    if ps == [] then prior else PieceLastYears(ps[1..], if UnitOf(ps[0].word) == Some(Years) then ps[0].count else prior)
  }

  /** Every piece in its unit, in nanoseconds. */
  function PieceNanos(ps: seq<Piece>): int {
    if ps == [] then 0
    else (match UnitOf(ps[0].word) case None => 0 case Some(u) => NanosIn(ps[0].count, u)) + PieceNanos(ps[1..])
  }

  /**
   * What the pieces amount to in plain arithmetic: a Period of the last
   * year count, the months and seven days a week plus the days when some
   * piece is in years, months or weeks, otherwise a Duration of every piece
   * in its unit.
   */
  function PiecesAmount(ps: seq<Piece>): TemporalAmount {
    if PieceCalendar(ps) then Period(PieceLastYears(ps, 0), PieceTotal(ps, Months), 7 * PieceTotal(ps, Weeks) + PieceTotal(ps, Days))
    else Duration(PieceNanos(ps))
  }

  lemma {:induction false} PieceMatchesSums(ps: seq<Piece>, prior: int)
    requires Writable(ps)
    ensures AllWhole(PieceMatches(ps))
    ensures forall u :: UnitTotal(PieceMatches(ps), u) == PieceTotal(ps, u)
    ensures LastYears(PieceMatches(ps), prior) == PieceLastYears(ps, prior)
    ensures AnyCalendar(PieceMatches(ps)) <==> PieceCalendar(ps)
    ensures NanosOf(PieceMatches(ps)) == PieceNanos(ps)
    decreases |ps|
  {
    if ps != [] {
      WritableTail(ps);
      var ms := PieceMatches(ps);
      var m := ms[0];
      assert ms[1..] == PieceMatches(ps[1..]);
      DigitsOfNat(ps[0].count);
      assert WholeCount(m) && CountOf(m) == ps[0].count;
      var next := if UnitOf(ps[0].word) == Some(Years) then ps[0].count else prior;
      PieceMatchesSums(ps[1..], next);
      assert forall x :: x in ms ==> x == m || x in ms[1..];
      AnyCalendarCons(ms);
    }
  }

  /** The sum in one unit of pieces written one after another. */
  lemma {:induction false} TotalAppend(a: seq<Piece>, b: seq<Piece>, u: ChronoUnit)
    ensures PieceTotal(a + b, u) == PieceTotal(a, u) + PieceTotal(b, u)
    decreases |a|
  {
    if a == [] {
      assert a + b == b;
    } else {
      assert (a + b)[0] == a[0] && (a + b)[1..] == a[1..] + b;
      TotalAppend(a[1..], b, u);
    }
  }

  lemma {:induction false} PiecesAppend(a: seq<Piece>, b: seq<Piece>, prior: int)
    ensures forall u :: PieceTotal(a + b, u) == PieceTotal(a, u) + PieceTotal(b, u)
    ensures PieceLastYears(a + b, prior) == PieceLastYears(b, PieceLastYears(a, prior))
    ensures PieceCalendar(a + b) <==> PieceCalendar(a) || PieceCalendar(b)
    ensures PieceNanos(a + b) == PieceNanos(a) + PieceNanos(b)
    decreases |a|
  {
    if a == [] {
      assert a + b == b;
    } else {
      assert (a + b)[0] == a[0] && (a + b)[1..] == a[1..] + b;
      PiecesAppend(a[1..], b, if UnitOf(a[0].word) == Some(Years) then a[0].count else prior);
    }
  }

  /** Text starting with a digit is not "now" in any case. */
  lemma NotNow(t: string)
    requires |t| > 0 && IsDigit(t[0])
    ensures !EqualsIgnoreCase(NOW, t)
  {
    assert Lower(t)[0] == LowerChar(t[0]) == t[0] != 'n';
  }

  /** No unit's sum leaves the int range, nor, when some piece is a calendar unit, seven days a week plus the days. */
  predicate WithinInt(ps: seq<Piece>) {
    (forall u :: u != Years ==> PieceTotal(ps, u) <= INT_MAX)
    && (PieceCalendar(ps) ==> 7 * PieceTotal(ps, Weeks) + PieceTotal(ps, Days) <= INT_MAX)
  }

  /** The sum of the counts of all the pieces. */
  function CountSum(ps: seq<Piece>): nat {
    if ps == [] then 0 else ps[0].count + CountSum(ps[1..])
  }

  /** No unit's sum exceeds the sum of all the counts. */
  lemma {:induction false} PieceTotalAtMost(ps: seq<Piece>, u: ChronoUnit)
    ensures 0 <= PieceTotal(ps, u) <= CountSum(ps)
  {
    if ps != [] {
      PieceTotalAtMost(ps[1..], u);
    }
  }

  /** Pieces whose counts add up to little enough stay within the int range. */
  lemma SmallCountsWithinInt(ps: seq<Piece>)
    requires 8 * CountSum(ps) <= INT_MAX
    ensures WithinInt(ps)
  {
    forall u {
      PieceTotalAtMost(ps, u);
    }
  }

  /** Within the int range, what the matches of the pieces amount to is what the pieces amount to. */
  lemma PieceMatchesAmount(ps: seq<Piece>)
    requires Writable(ps) && WithinInt(ps)
    ensures AllWhole(PieceMatches(ps)) && WholeAmount(PieceMatches(ps)) == Ok(PiecesAmount(ps))
  {
    var ms := PieceMatches(ps);
    PieceMatchesSums(ps, 0);
    var y, mo, w, d := PieceLastYears(ps, 0), PieceTotal(ps, Months), PieceTotal(ps, Weeks), PieceTotal(ps, Days);
    assert AnyCalendar(ms) <==> PieceCalendar(ps);
    WholeAmountOf(ms, y, mo, w, d, PieceNanos(ps));
    if PieceCalendar(ps) {
      assert WholeAmount(ms) == Ok(Period(y, mo, 7 * w + d));
      assert PiecesAmount(ps) == Period(y, mo, 7 * w + d);
    } else {
      assert WholeAmount(ms) == Ok(Duration(PieceNanos(ps)));
      assert PiecesAmount(ps) == Duration(PieceNanos(ps));
    }
  }

  /**
   * parseTemporalAmount on the pieces separated by single spaces: the
   * amount of their matches in int arithmetic, which is what the pieces
   * amount to when no sum leaves the int range.
   */
  lemma ParseJoined(ps: seq<Piece>)
    requires ps != [] && Writable(ps)
    ensures AllWhole(PieceMatches(ps)) && ParseSpec(Joined(ps)) == WholeAmount(PieceMatches(ps))
    ensures WithinInt(ps) ==> ParseSpec(Joined(ps)) == Ok(PiecesAmount(ps))
  {
    var t := Joined(ps);
    JoinedEnds(ps);
    NotNow(t);
    assert t[0..] == t;
    MatchesOfJoined(t, 0, ps);
    PieceMatchesSums(ps, 0);
    ParseWholeCounts(t);
    if WithinInt(ps) {
      PieceMatchesAmount(ps);
    }
  }
}
