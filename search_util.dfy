/**
 * LogSearchUtil: the quote-aware search-term tokenizer and the normalisation
 * of the search parameters (keys, terms, time range, paging, sort order)
 * that buildSearchRequest turns into an Elasticsearch query.
 */
module SearchUtil {
  import opened Wrappers
  import opened JavaText

  const QUOTE: char := '"'
  /** elasticsearch.result.size.search.default */
  const DEFAULT_SEARCH_SIZE: int := 100
  /** elasticsearch.result.size.search.max */
  const MAX_SEARCH_SIZE: int := 1000

  /** The regex class [\|,;\s+] that separates search terms, owners and levels. */
  predicate IsTermSeparator(c: char) {
    c == '|' || c == ',' || c == ';' || c == '+' || IsRegexSpace(c)
  }

  /** The regex class [\|,;] that separates tags, logbooks, properties and attachments. */
  predicate IsListSeparator(c: char) {
    c == '|' || c == ',' || c == ';'
  }

  /** A term kept whole by the tokenizer: a quote, text without quotes, a quote. */
  predicate IsQuotedTerm(t: string) {
    |t| >= 2 && t[0] == QUOTE && t[|t| - 1] == QUOTE && QUOTE !in t[1..|t| - 1]
  }

  /** A term cut out between separators: non-empty, without quotes or separators. */
  predicate IsPlainTerm(t: string) {
    t != [] && QUOTE !in t && forall c :: c in t ==> !IsTermSeparator(c)
  }

  // ---- getSearchTerms ----

  /** In a text with an even number of quotes, the first quote has a partner after it. */
  lemma SecondQuoteExists(q: string, start: nat)
    requires start < |q| && IndexOf(q, QUOTE, 0) == start
    requires CountChar(q, QUOTE) % 2 == 0
    ensures IndexOf(q, QUOTE, start + 1) >= 0
  {
    if IndexOf(q, QUOTE, start + 1) < 0 {
      LoneQuote(q, start);
      assert false;
    }
  }

  /** A quote with no other quote before or after it makes the count one. */
  lemma LoneQuote(q: string, start: nat)
    requires start < |q| && IndexOf(q, QUOTE, 0) == start && IndexOf(q, QUOTE, start + 1) < 0
    ensures CountChar(q, QUOTE) == 1
  {
    assert QUOTE !in q[..start];
    assert QUOTE !in q[start + 1..];
    CountCharAbsent(q[..start], QUOTE);
    CountCharAbsent(q[start + 1..], QUOTE);
    CountCharSplit(q, start, QUOTE);
    CountCharSplit(q[start..], 1, QUOTE);
    assert q[start..][1..] == q[start + 1..];
  }

  /** The text from a quote to the next quote is a quoted term with exactly two quotes. */
  lemma QuotedSlice(q: string, start: nat, end: nat)
    requires start < end < |q| && q[start] == QUOTE && q[end] == QUOTE
    requires forall k :: start < k < end ==> q[k] != QUOTE
    ensures IsQuotedTerm(q[start..end + 1])
    ensures CountChar(q[start..end + 1], QUOTE) == 2
  {
    var t := q[start..end + 1];
    var mid := q[start + 1..end];
    assert t == [QUOTE] + mid + [QUOTE];
    assert t[1..|t| - 1] == mid;
    assert QUOTE !in mid;
    CountCharAbsent(mid, QUOTE);
    CountCharAppend([QUOTE] + mid, [QUOTE], QUOTE);
    CountCharAppend([QUOTE], mid, QUOTE);
  }

  /**
   * One round of the quoted-term loop: the text from the first quote to the
   * next one, quotes included, and what is left once every occurrence of it
   * is removed.
   */
  function FirstQuoted(q: string): (r: (string, string))
    requires CountChar(q, QUOTE) % 2 == 0 && IndexOf(q, QUOTE, 0) >= 0
    ensures IsQuotedTerm(r.0)
    ensures |r.1| < |q| && CountChar(r.1, QUOTE) % 2 == 0
  {
    var start := IndexOf(q, QUOTE, 0);
    SecondQuoteExists(q, start);
    var end := IndexOf(q, QUOTE, start + 1);
    var quoted := q[start..end + 1];
    QuotedSlice(q, start, end);
    RemoveAllParity(q, quoted, QUOTE);
    RemoveAllShrinks(q, quoted, start);
    (quoted, RemoveAll(q, quoted))
  }

  /** FirstQuoted, as the loop computes it from the two quote positions. */
  lemma FirstQuotedAt(q: string, start: int, end: int)
    requires CountChar(q, QUOTE) % 2 == 0 && start == IndexOf(q, QUOTE, 0) && start >= 0
    requires end == IndexOf(q, QUOTE, start + 1)
    ensures 0 <= start < end < |q|
    ensures FirstQuoted(q) == (q[start..end + 1], RemoveAll(q, q[start..end + 1]))
  {
    SecondQuoteExists(q, start);
  }

  /**
   * The rounds of the quoted-term loop, until no quote is left: the quoted
   * terms in order and the text that remains.
   */
  function QuotedRounds(q: string): (r: (seq<string>, string))
    requires CountChar(q, QUOTE) % 2 == 0
    ensures forall t :: t in r.0 ==> IsQuotedTerm(t)
    ensures QUOTE !in r.1
    decreases |q|
  {
    if IndexOf(q, QUOTE, 0) < 0 then ([], q)
    else
      var round := FirstQuoted(q);
      var next := QuotedRounds(round.1);
      ([round.0] + next.0, next.1)
  }

  /**
   * What getSearchTerms returns: no quotes, the non-empty pieces between
   * separators; an odd number of quotes, IllegalArgumentException; otherwise
   * the quoted terms whole, then the non-empty pieces of what is left.
   */
  function SearchTerms(s: string): (r: Result<seq<string>>)
    ensures r.Err? <==> CountChar(s, QUOTE) % 2 == 1
    ensures r.Err? ==> r.error == IllegalArgument
    ensures r.Ok? ==> forall t :: t in r.value ==> IsQuotedTerm(t) || IsPlainTerm(t)
    ensures CountChar(s, QUOTE) == 0 ==> r == Ok(NonEmpty(SplitAll(s, IsTermSeparator)))
  {
    var count := CountChar(s, QUOTE);
    if count == 0 then
      JavaSplitNonEmpty(s, IsTermSeparator);
      var terms := NonEmpty(JavaSplit(s, IsTermSeparator));
      assert forall t :: t in terms ==> QUOTE !in t by {
        forall t | t in terms ensures QUOTE !in t {
          if QUOTE in t { assert QUOTE in s; CountCharPositive(s, QUOTE); }
        }
      }
      Ok(terms)
    else if count % 2 == 1 then Err(IllegalArgument)
    else
      var rounds := QuotedRounds(s);
      var rest := NonEmpty(JavaSplit(rounds.1, IsTermSeparator));
      assert forall t :: t in rest ==> IsPlainTerm(t);
      Ok(rounds.0 + rest)
  }

  lemma SearchTermsUnquoted(s: string)
    requires CountChar(s, QUOTE) == 0
    ensures SearchTerms(s) == Ok(NonEmpty(JavaSplit(s, IsTermSeparator)))
  {
  }

  lemma SearchTermsQuoted(s: string)
    requires CountChar(s, QUOTE) > 0 && CountChar(s, QUOTE) % 2 == 0
    ensures SearchTerms(s) == Ok(QuotedRounds(s).0 + NonEmpty(JavaSplit(QuotedRounds(s).1, IsTermSeparator)))
  {
  }

  lemma {:induction false} CountCharPositive(s: string, c: char)
    requires c in s
    ensures CountChar(s, c) > 0
  {
    if s[0] != c {
      assert c in s[1..];
      CountCharPositive(s[1..], c);
    }
  }

  /** The first quoted term is returned whole, quotes included, whatever separators it holds. */
  lemma FirstQuotedTermWhole(s: string, i: nat, j: nat)
    requires CountChar(s, QUOTE) % 2 == 0
    requires i < |s| && IndexOf(s, QUOTE, 0) == i && IndexOf(s, QUOTE, i + 1) == j
    ensures SearchTerms(s).Ok? && |SearchTerms(s).value| > 0
    ensures SearchTerms(s).value[0] == s[i..j + 1]
  {
    CountCharPositive(s, QUOTE);
  }

  /** getSearchTerms, as the source runs it: a loop that cuts quoted terms out of the text. */
  method GetSearchTerms(input: string) returns (r: Result<seq<string>>)
    ensures r == SearchTerms(input)
  {
    var quoteCount := CountChar(input, QUOTE);
    if quoteCount == 0 {
      SearchTermsUnquoted(input);
      return Ok(NonEmpty(JavaSplit(input, IsTermSeparator)));
    }
    if quoteCount % 2 == 1 {
      return Err(IllegalArgument);
    }
    var terms: seq<string> := [];
    var q := input;
    var nextStart := IndexOf(q, QUOTE, 0);
    while nextStart >= 0
      invariant CountChar(q, QUOTE) % 2 == 0
      invariant nextStart == IndexOf(q, QUOTE, 0)
      invariant terms + QuotedRounds(q).0 == QuotedRounds(input).0
      invariant QuotedRounds(q).1 == QuotedRounds(input).1
      decreases |q|
    {
      var endIndex := IndexOf(q, QUOTE, nextStart + 1);
      FirstQuotedAt(q, nextStart, endIndex);
      var quotedTerm := q[nextStart..endIndex + 1];
      var rest := RemoveAll(q, quotedTerm);
      assert terms + [quotedTerm] + QuotedRounds(rest).0 == terms + QuotedRounds(q).0;
      terms := terms + [quotedTerm];
      q := rest;
      nextStart := IndexOf(q, QUOTE, 0);
    }
    assert QuotedRounds(q) == ([], q);
    assert terms == QuotedRounds(input).0;
    SearchTermsQuoted(input);
    var remaining := JavaSplit(q, IsTermSeparator);
    r := Ok(terms + NonEmpty(remaining));
  }

  // ---- buildSearchRequest: parameter normalisation ----

  /** A description or title term: a word for a wildcard match, or a phrase. */
  datatype Term = Word(text: string) | Phrase(text: string)

  /**
   * A tokenizer output, trimmed and lower-cased; a quoted one becomes a
   * phrase without its quotes.
   */
  function ClassifyTerm(pattern: string): (t: Term)
    requires IsQuotedTerm(pattern) || IsPlainTerm(pattern)
    ensures IsQuotedTerm(pattern) ==> t == Phrase(Lower(pattern[1..|pattern| - 1]))
    ensures IsPlainTerm(pattern) ==> t.Word? && QUOTE !in t.text
  {
    var term := Lower(Trim(pattern));
    ClassifyFacts(pattern);
    if StartsWith(term, "\"") && EndsWith(term, "\"") then Phrase(term[1..|term| - 1]) else Word(term)
  }

  lemma ClassifyFacts(pattern: string)
    requires IsQuotedTerm(pattern) || IsPlainTerm(pattern)
    ensures var term := Lower(Trim(pattern));
      (IsQuotedTerm(pattern) ==> |term| >= 2 && term[0] == QUOTE && term[|term| - 1] == QUOTE
                                 && term[1..|term| - 1] == Lower(pattern[1..|pattern| - 1]))
      && (IsPlainTerm(pattern) ==> QUOTE !in term)
  {
    var term := Lower(Trim(pattern));
    if IsQuotedTerm(pattern) {
      assert Trim(pattern) == pattern;
      assert term[1..|term| - 1] == Lower(pattern[1..|pattern| - 1]);
    } else {
      forall k | 0 <= k < |term| ensures term[k] != QUOTE {
        assert Trim(pattern)[k] in Trim(pattern);
      }
    }
  }

  /** The terms of every value of a desc/title parameter, in order. */
  function TermsOfValues(values: seq<string>): (r: Result<seq<Term>>)
    ensures r.Err? <==> exists v :: v in values && CountChar(v, QUOTE) % 2 == 1
    ensures r.Err? ==> r.error == IllegalArgument
  {
    if values == [] then Ok([])
    else
      assert values[0] in values;
      match SearchTerms(values[0])
      case Err(e) => Err(e)
      case Ok(patterns) =>
        assert forall v :: v in values[1..] ==> v in values;
        match TermsOfValues(values[1..])
        case Err(e) => Err(e)
        case Ok(rest) => Ok(seq(|patterns|, i requires 0 <= i < |patterns| => ClassifyTerm(patterns[i])) + rest)
  }

  /** value.split(regex) followed by trim() on each piece, over all values. */
  function TrimmedPieces(values: seq<string>, sep: char -> bool): seq<string> {
    if values == [] then []
    else
      var pieces := JavaSplit(values[0], sep);
      seq(|pieces|, i requires 0 <= i < |pieces| => Trim(pieces[i])) + TrimmedPieces(values[1..], sep)
  }

  /** The level terms: split on [\|,;\s+], trimmed and lower-cased. */
  function LevelTerms(values: seq<string>): (r: seq<string>)
    ensures |r| == |TrimmedPieces(values, IsTermSeparator)|
    ensures forall k :: 0 <= k < |r| ==> r[k] == Lower(TrimmedPieces(values, IsTermSeparator)[k])
  {
    var pieces := TrimmedPieces(values, IsTermSeparator);
    seq(|pieces|, i requires 0 <= i < |pieces| => Lower(pieces[i]))
  }

  /** A "properties" filter "name.attribute.value"; the value counts only with an attribute. */
  datatype PropertyFilter = PropertyFilter(name: Option<string>, attribute: Option<string>, value: Option<string>)

  function FieldOrNone(fields: seq<string>, k: nat): Option<string> {
    if k < |fields| && fields[k] != [] then Some(Trim(fields[k])) else None
  }

  function PropertyFilterOf(pattern: string): (f: PropertyFilter)
    ensures f.value.Some? ==> f.attribute.Some?
  {
    var fields := JavaSplit(pattern, c => c == '.');
    var attribute := FieldOrNone(fields, 1);
    PropertyFilter(FieldOrNone(fields, 0), attribute, if attribute.Some? then FieldOrNone(fields, 2) else None)
  }

  function PropertyFilters(values: seq<string>): seq<PropertyFilter> {
    if values == [] then []
    else
      var pieces := JavaSplit(values[0], IsListSeparator);
      seq(|pieces|, i requires 0 <= i < |pieces| => PropertyFilterOf(pieces[i])) + PropertyFilters(values[1..])
  }

  /** One query of an "attachments" parameter. */
  datatype AttachmentQuery = AnyAttachment | FilenameLike(pattern: string)

  /**
   * The attachment queries: a filename wildcard per piece, until an empty or
   * "null" piece asks for any attachment, which ends the scan.
   */
  function AttachmentQueries(values: seq<string>): (r: seq<AttachmentQuery>)
    ensures forall k :: 0 <= k < |r| - 1 ==> r[k].FilenameLike?
  {
    if values == [] then []
    else
      var pieces := AttachmentPieces(JavaSplit(values[0], IsListSeparator));
      if |pieces| > 0 && pieces[|pieces| - 1] == AnyAttachment then pieces
      else pieces + AttachmentQueries(values[1..])
  }

  function AttachmentPieces(pieces: seq<string>): (r: seq<AttachmentQuery>)
    ensures forall k :: 0 <= k < |r| - 1 ==> r[k].FilenameLike?
  {
    if pieces == [] then []
    else if pieces[0] == [] || pieces[0] == "null" then [AnyAttachment]
    else [FilenameLike(Trim(pieces[0]))] + AttachmentPieces(pieces[1..])
  }

  /** The must-clauses added while the parameters are scanned, one per parameter. */
  datatype Clause =
    | Phrases(phrases: seq<string>)
    | Owners(owners: seq<string>)
    | Tags(tags: seq<string>)
    | Logbooks(logbooks: seq<string>)
    | Properties(filters: seq<PropertyFilter>)
    | Attachments(queries: seq<AttachmentQuery>)

  datatype SortOrder = Asc | Desc

  /** The local accumulators of buildSearchRequest; times are epoch milliseconds. */
  datatype Accumulators = Accumulators(
    fuzzy: bool,
    description: seq<Term>,
    title: seq<Term>,
    levels: seq<string>,
    clauses: seq<Clause>,
    temporal: bool,
    includeEvents: bool,
    start: int,
    end: int,
    size: int,
    from: int,
    sort: Option<SortOrder>)

  /** The accumulators before the first parameter: start at the epoch, end at the clock read `endClock`. */
  function InitialAccumulators(endClock: int): Accumulators {
    Accumulators(false, [], [], [], [], false, false, 0, endClock, DEFAULT_SEARCH_SIZE, 0, None)
  }

  /** Parses every time value; the first one that does not parse fails the search. */
  function ParseTimes(values: seq<string>, parseTime: string -> Option<int>): (r: Result<seq<int>>)
    ensures r.Ok? ==> |r.value| == |values| && forall k :: 0 <= k < |values| ==> parseTime(values[k]) == Some(r.value[k])
    ensures r.Err? ==> r.error == DateTimeParse && exists v :: v in values && parseTime(v).None?
  {
    if values == [] then Ok([])
    else match parseTime(values[0])
      case None => Err(DateTimeParse)
      case Some(t) =>
        match ParseTimes(values[1..], parseTime)
        case Err(e) => Err(e)
        case Ok(ts) => Ok([t] + ts)
  }

  /** The earliest of `first` and `times`, as the "start" loop computes it. */
  function Earliest(first: int, times: seq<int>): (r: int)
    ensures r <= first && forall k :: 0 <= k < |times| ==> r <= times[k]
    ensures r == first || r in times
    decreases |times|
  {
    if times == [] then first
    else
      var e := Earliest(if first < times[0] then first else times[0], times[1..]);
      assert forall x :: x in times[1..] ==> x in times;
      e
  }

  /** The latest of `first` and `times`, as the "end" loop computes it. */
  function Latest(first: int, times: seq<int>): (r: int)
    ensures r >= first && forall k :: 0 <= k < |times| ==> r >= times[k]
    ensures r == first || r in times
    decreases |times|
  {
    if times == [] then first
    else
      var l := Latest(if first < times[0] then times[0] else first, times[1..]);
      assert forall x :: x in times[1..] ==> x in times;
      l
  }

  function MaxOf(xs: seq<int>): (m: int)
    requires xs != []
    ensures m in xs && forall k :: 0 <= k < |xs| ==> xs[k] <= m
  {
    if |xs| == 1 then xs[0]
    else
      var rest := MaxOf(xs[1..]);
      assert rest in xs;
      if xs[0] < rest then rest else xs[0]
  }

  /** Every value parses with Integer.valueOf. */
  predicate AllParse(values: seq<string>) {
    forall k :: 0 <= k < |values| ==> ParseInt(values[k]).Ok?
  }

  function ParsedInts(values: seq<string>): (r: seq<int>)
    requires AllParse(values)
    ensures |r| == |values| && forall k :: 0 <= k < |values| ==> ParseInt(values[k]) == Ok(r[k])
  {
    seq(|values|, i requires 0 <= i < |values| => ParseInt(values[i]).value)
  }

  /**
   * The "size"/"limit"/"from" rule: the largest value by Integer.valueOf.
   * A single value that does not parse is ignored (the exception is caught);
   * with two or more values the comparator itself parses, and a value that
   * does not parse raises NumberFormatException.
   */
  function LargestValue(values: seq<string>, current: int): (r: Result<int>)
    ensures |values| == 0 ==> r == Ok(current)
    ensures |values| == 1 ==> r == Ok(if ParseInt(values[0]).Ok? then ParseInt(values[0]).value else current)
    ensures |values| >= 2 && AllParse(values) ==>
      r.Ok? && (forall k :: 0 <= k < |values| ==> ParseInt(values[k]).value <= r.value)
            && exists k :: 0 <= k < |values| && ParseInt(values[k]) == Ok(r.value)
    ensures |values| >= 2 && !AllParse(values) ==> r == Err(NumberFormat)
  {
    if |values| == 0 then Ok(current)
    else if |values| == 1 then
      match ParseInt(values[0])
      case Ok(v) => Ok(v)
      case Err(_) => Ok(current)
    else if AllParse(values) then
      var m := MaxOf(ParsedInts(values));
      Ok(m)
    else Err(NumberFormat)
  }

  /**
   * The "sort" rule: the first value picks the order when it begins, ignoring
   * case, with ASC or UP (ascending) or DESC or DOWN (descending); an empty
   * list or any other first value keeps the order.
   */
  function SortOf(values: seq<string>, current: Option<SortOrder>): (r: Option<SortOrder>)
    ensures values == [] ==> r == current
    ensures values != [] && (StartsWithIgnoreCase(values[0], "ASC") || StartsWithIgnoreCase(values[0], "UP"))
      ==> r == Some(Asc)
    ensures values != [] && !(StartsWithIgnoreCase(values[0], "ASC") || StartsWithIgnoreCase(values[0], "UP"))
      && (StartsWithIgnoreCase(values[0], "DESC") || StartsWithIgnoreCase(values[0], "DOWN"))
      ==> r == Some(Desc)
    ensures values != [] && !(StartsWithIgnoreCase(values[0], "ASC") || StartsWithIgnoreCase(values[0], "UP")
                              || StartsWithIgnoreCase(values[0], "DESC") || StartsWithIgnoreCase(values[0], "DOWN"))
      ==> r == current
  {
    if values == [] then current
    else
      var sort := Upper(values[0]);
      UpperStartsWith(values[0], "ASC");
      UpperStartsWith(values[0], "UP");
      UpperStartsWith(values[0], "DESC");
      UpperStartsWith(values[0], "DOWN");
      if StartsWith(sort, "ASC") || StartsWith(sort, "UP") then Some(Asc)
      else if StartsWith(sort, "DESC") || StartsWith(sort, "DOWN") then Some(Desc)
      else current
  }

  /** Only the first value of "sort" counts: the values after it never change the order. */
  lemma SortFirstValueOnly(values: seq<string>, current: Option<SortOrder>)
    requires values != []
    ensures SortOf(values, current) == SortOf(values[..1], current)
  {
  }

  /** The order a value picks does not depend on its case. */
  lemma SortIgnoresCase(v: string, w: string, rest: seq<string>, current: Option<SortOrder>)
    requires EqualsIgnoreCase(v, w)
    ensures SortOf([v] + rest, current) == SortOf([w], current)
  {
    UpperIgnoresCase(v, w);
  }

  const KNOWN_KEYS: set<string> := {
    "desc", "description", "text", "title", "fuzzy", "phrase", "owner", "tags", "logbooks",
    "start", "end", "includeevents", "includeevent", "properties", "level", "size", "limit",
    "from", "sort", "attachments"}

  /** One parameter of the request, dispatched on its stripped, lower-cased key. */
  function ApplyParameter(acc: Accumulators, key: string, values: seq<string>, now: int,
                          parseTime: string -> Option<int>): (r: Result<Accumulators>)
    ensures Lower(Strip(key)) !in KNOWN_KEYS ==> r == Ok(acc)
  {
    var k := Lower(Strip(key));
    if k == "desc" || k == "description" || k == "text" then
      match TermsOfValues(values)
      case Err(e) => Err(e)
      case Ok(ts) => Ok(acc.(description := acc.description + ts))
    else if k == "title" then
      match TermsOfValues(values)
      case Err(e) => Err(e)
      case Ok(ts) => Ok(acc.(title := acc.title + ts))
    else if k == "fuzzy" then Ok(acc.(fuzzy := true))
    else if k == "phrase" then
      Ok(acc.(clauses := acc.clauses + [Phrases(seq(|values|, i requires 0 <= i < |values| => Lower(Trim(values[i]))))]))
    else if k == "owner" then Ok(acc.(clauses := acc.clauses + [Owners(TrimmedPieces(values, IsTermSeparator))]))
    else if k == "tags" then Ok(acc.(clauses := acc.clauses + [Tags(TrimmedPieces(values, IsListSeparator))]))
    else if k == "logbooks" then Ok(acc.(clauses := acc.clauses + [Logbooks(TrimmedPieces(values, IsListSeparator))]))
    else if k == "start" then
      match ParseTimes(values, parseTime)
      case Err(e) => Err(e)
      case Ok(ts) => Ok(acc.(temporal := true, start := Earliest(now, ts)))
    else if k == "end" then
      match ParseTimes(values, parseTime)
      case Err(e) => Err(e)
      case Ok(ts) => Ok(acc.(temporal := true, end := Latest(LONG_MIN, ts)))
    else if k == "includeevents" || k == "includeevent" then Ok(acc.(includeEvents := true))
    else if k == "properties" then Ok(acc.(clauses := acc.clauses + [Properties(PropertyFilters(values))]))
    else if k == "level" then Ok(acc.(levels := acc.levels + LevelTerms(values)))
    else if k == "size" || k == "limit" then
      match LargestValue(values, acc.size)
      case Err(e) => Err(e)
      case Ok(v) => Ok(acc.(size := v))
    else if k == "from" then
      match LargestValue(values, acc.from)
      case Err(e) => Err(e)
      case Ok(v) => Ok(acc.(from := v))
    else if k == "sort" then Ok(acc.(sort := SortOf(values, acc.sort)))
    else if k == "attachments" then
      var queries := AttachmentQueries(values);
      Ok(if queries == [] then acc else acc.(clauses := acc.clauses + [Attachments(queries)]))
    else Ok(acc)
  }

  /** The parameters in request order, folded from the first. */
  function ApplyAll(acc: Accumulators, params: seq<(string, seq<string>)>, now: int,
                    parseTime: string -> Option<int>): Result<Accumulators>
    decreases |params|
  {
    if params == [] then Ok(acc)
    else
      match ApplyParameter(acc, params[0].0, params[0].1, now, parseTime)
      case Err(e) => Err(e)
      case Ok(next) => ApplyAll(next, params[1..], now, parseTime)
  }

  /** One parameter of the scan from index `i`, with what the parameters after it give passed in as `rest`. */
  lemma ApplyAllStep(acc: Accumulators, params: seq<(string, seq<string>)>, i: nat, now: int,
                     parseTime: string -> Option<int>, step: Result<Accumulators>, rest: Result<Accumulators>)
    requires i < |params| && step == ApplyParameter(acc, params[i].0, params[i].1, now, parseTime)
    requires step.Ok? ==> rest == ApplyAll(step.value, params[i + 1..], now, parseTime)
    ensures ApplyAll(acc, params[i..], now, parseTime) == if step.Err? then Err(step.error) else rest
  {
    assert params[i..][0] == params[i] && params[i..][1..] == params[i + 1..];
  }

  /** The time range of the query: whole seconds, as 1000 * toEpochSecond(). */
  datatype TimeRange = TimeRange(fromMillis: int, toMillis: int, includeEvents: bool)

  /** What buildSearchRequest hands to Elasticsearch, apart from the query builders. */
  datatype SearchQuery = SearchQuery(
    fuzzy: bool,
    description: seq<Term>,
    title: seq<Term>,
    levels: seq<string>,
    clauses: seq<Clause>,
    range: Option<TimeRange>,
    size: int,
    from: int,
    sort: Option<SortOrder>)

  function WholeSeconds(millis: int): int { millis / 1000 * 1000 }

  /**
   * After the scan: a start after the end is a bad request; a start equal to
   * the end is accepted; the size is capped by MAX_SEARCH_SIZE.
   */
  function Finish(acc: Accumulators): (r: Result<SearchQuery>)
    ensures r.Err? <==> acc.temporal && acc.end < acc.start
    ensures r.Err? ==> r.error == BadRequest
    ensures r.Ok? ==> r.value.size == (if acc.size < MAX_SEARCH_SIZE then acc.size else MAX_SEARCH_SIZE)
    ensures r.Ok? ==> (r.value.range.Some? <==> acc.temporal)
    ensures r.Ok? && acc.temporal ==> r.value.range.value.fromMillis <= r.value.range.value.toMillis
  {
    if acc.temporal && acc.end < acc.start then Err(BadRequest)
    else
      var range := if acc.temporal then Some(TimeRange(WholeSeconds(acc.start), WholeSeconds(acc.end), acc.includeEvents)) else None;
      Ok(SearchQuery(acc.fuzzy, acc.description, acc.title, acc.levels, acc.clauses, range,
                     if acc.size < MAX_SEARCH_SIZE then acc.size else MAX_SEARCH_SIZE, acc.from, acc.sort))
  }

  /**
   * The whole of buildSearchRequest. The source reads the clock twice:
   * `endClock` is the read that sets the default end (LogSearchUtil.java:79),
   * `startClock` the later read each "start" parameter begins from (:172).
   */
  function SearchSpec(params: seq<(string, seq<string>)>, endClock: int, startClock: int,
                      parseTime: string -> Option<int>): Result<SearchQuery> {
    match ApplyAll(InitialAccumulators(endClock), params, startClock, parseTime)
    case Err(e) => Err(e)
    case Ok(acc) => Finish(acc)
  }

  /** buildSearchRequest: scans the parameters in order, then checks and caps. */
  method BuildSearchRequest(params: seq<(string, seq<string>)>, endClock: int, startClock: int,
                            parseTime: string -> Option<int>)
    returns (r: Result<SearchQuery>)
    ensures r == SearchSpec(params, endClock, startClock, parseTime)
  {
    var acc := InitialAccumulators(endClock);
    var i := 0;
    assert params[0..] == params;
    while i < |params|
      invariant 0 <= i <= |params|
      invariant ApplyAll(acc, params[i..], startClock, parseTime)
             == ApplyAll(InitialAccumulators(endClock), params, startClock, parseTime)
    {
      var step := ApplyParameter(acc, params[i].0, params[i].1, startClock, parseTime);
      if step.Err? {
        ApplyAllStep(acc, params, i, startClock, parseTime, step, Err(step.error));
        return Err(step.error);
      }
      ApplyAllStep(acc, params, i, startClock, parseTime, step, ApplyAll(step.value, params[i + 1..], startClock, parseTime));
      acc := step.value;
      i := i + 1;
    }
    assert params[i..] == [];
    r := Finish(acc);
  }

  // ---- properties of the parameter rules ----

  /** With several start values the earliest wins, never later than now. */
  lemma StartIsEarliest(acc: Accumulators, values: seq<string>, now: int, parseTime: string -> Option<int>, times: seq<int>)
    requires ParseTimes(values, parseTime) == Ok(times)
    ensures var r := ApplyParameter(acc, "start", values, now, parseTime);
      r.Ok? && r.value.temporal && r.value.start <= now
      && (forall k :: 0 <= k < |times| ==> r.value.start <= times[k])
      && (r.value.start == now || r.value.start in times)
  {
    assert Strip("start") == "start";
    assert Lower("start") == "start";
  }

  /** With several end values the latest wins. */
  lemma EndIsLatest(acc: Accumulators, values: seq<string>, now: int, parseTime: string -> Option<int>, times: seq<int>)
    requires ParseTimes(values, parseTime) == Ok(times)
    ensures var r := ApplyParameter(acc, "end", values, now, parseTime);
      r.Ok? && r.value.temporal
      && (forall k :: 0 <= k < |times| ==> times[k] <= r.value.end)
      && (r.value.end == LONG_MIN || r.value.end in times)
  {
    assert Strip("end") == "end";
    assert Lower("end") == "end";
  }
}
