/**
 * InstanceSerializer.java and InstanceDeserializer.java: an Instant travels in
 * JSON as one integer, its milliseconds since the epoch.
 */
module InstantJson {
  import opened Wrappers
  import opened JavaText
  import opened Entities

  const NANOS_PER_MILLI: int := 1_000_000

  /** The instant on a nanosecond scale. */
  function TotalNanos(i: Instant): int {
    i.seconds * 1_000_000_000 + i.nanos
  }

  /**
   * Instant.toEpochMilli: the milliseconds since the epoch, rounded toward
   * negative infinity; ArithmeticException when that leaves the long range.
   */
  function ToEpochMilli(i: Instant): (r: Result<int>)
    ensures r.Ok? <==> LONG_MIN <= TotalNanos(i) / NANOS_PER_MILLI <= LONG_MAX
    ensures r.Ok? ==> r.value * NANOS_PER_MILLI <= TotalNanos(i) < (r.value + 1) * NANOS_PER_MILLI
    ensures r.Err? ==> r.error == Arithmetic
  {
    var m := i.seconds * 1000 + i.nanos / NANOS_PER_MILLI;
    if LONG_MIN <= m <= LONG_MAX then Ok(m) else Err(Arithmetic)
  }

  /** Instant.ofEpochMilli: floor division into seconds, the remainder as nanoseconds. */
  function OfEpochMilli(m: int): (i: Instant)
    ensures TotalNanos(i) == m * NANOS_PER_MILLI
    ensures i.nanos % NANOS_PER_MILLI == 0
  {
    Instant(m / 1000, (m % 1000) * NANOS_PER_MILLI)
  }

  /** The text of one JSON integer: an optional minus sign, then decimal digits. */
  predicate IsJsonInteger(s: string) {
    var digits := if |s| > 0 && s[0] == '-' then s[1..] else s;
    |digits| > 0 && AllDigits(digits)
  }

  /** InstanceSerializer.serialize: `writeNumber(value.toEpochMilli())`. */
  function Serialize(i: Instant): (r: Result<string>)
    ensures r.Ok? ==> IsJsonInteger(r.value)
    ensures r.Ok? <==> ToEpochMilli(i).Ok?
  {
    match ToEpochMilli(i)
    case Ok(m) =>
      var text := IntToString(m);
      assert m < 0 ==> text[1..] == NatToString(-m);
      Ok(text)
    case Err(e) => Err(e)
  }

  /** InstanceDeserializer.deserialize: Long.parseLong of the text, then ofEpochMilli. */
  function Deserialize(text: string): (r: Result<Instant>)
    ensures r.Ok? ==> r.value.nanos % NANOS_PER_MILLI == 0
    ensures r.Err? ==> r.error == NumberFormat
  {
    match ParseLong(text)
    case Ok(m) => Ok(OfEpochMilli(m))
    case Err(e) => Err(NumberFormat)
  }

  /** The instant with its sub-millisecond part dropped. */
  function TruncateToMillis(i: Instant): (t: Instant)
    ensures t.seconds == i.seconds && t.nanos <= i.nanos
    ensures t.nanos % NANOS_PER_MILLI == 0 && i.nanos - t.nanos < NANOS_PER_MILLI
  {
    Instant(i.seconds, i.nanos - i.nanos % NANOS_PER_MILLI)
  }

  /** Splitting epoch milliseconds back into seconds and nanoseconds. */
  lemma OfEpochMilliOfParts(s: int, n: Nano)
    ensures OfEpochMilli(s * 1000 + n / NANOS_PER_MILLI) == Instant(s, n - n % NANOS_PER_MILLI)
  {
    var q := n / NANOS_PER_MILLI;
    assert 0 <= q < 1000;
    var m := s * 1000 + q;
    assert m / 1000 == s && m % 1000 == q;
    assert q * NANOS_PER_MILLI == n - n % NANOS_PER_MILLI;
  }

  /**
   * Serializing then deserializing an instant gives it back with its
   * sub-millisecond precision truncated.
   */
  lemma DeserializeSerialize(i: Instant)
    requires Serialize(i).Ok?
    ensures Deserialize(Serialize(i).value) == Ok(TruncateToMillis(i))
  {
    var m := ToEpochMilli(i).value;
    ParseSignedOfIntToString(m, LONG_MIN, LONG_MAX);
    OfEpochMilliOfParts(i.seconds, i.nanos);
  }

  /** An instant of whole milliseconds survives the round trip unchanged. */
  lemma DeserializeSerializeMillis(i: Instant)
    requires Serialize(i).Ok? && i.nanos % NANOS_PER_MILLI == 0
    ensures Deserialize(Serialize(i).value) == Ok(i)
  {
    DeserializeSerialize(i);
  }

  /** Every long of milliseconds is written back exactly as it was read. */
  lemma SerializeDeserialize(m: int)
    requires LONG_MIN <= m <= LONG_MAX
    ensures Deserialize(IntToString(m)) == Ok(OfEpochMilli(m))
    ensures Serialize(OfEpochMilli(m)) == Ok(IntToString(m))
  {
    ParseSignedOfIntToString(m, LONG_MIN, LONG_MAX);
    var i := OfEpochMilli(m);
    assert i.nanos / NANOS_PER_MILLI == m % 1000;
    assert i.seconds * 1000 + i.nanos / NANOS_PER_MILLI == m;
  }

  /** Text with a decimal point, such as "1687786800.123", is not a long and is rejected. */
  lemma DecimalTextRejected(text: string, k: nat)
    requires k < |text| && text[k] == '.'
    ensures Deserialize(text) == Err(NumberFormat)
  {
    var body := if text[0] == '-' || text[0] == '+' then text[1..] else text;
    var j := if text[0] == '-' || text[0] == '+' then k - 1 else k;
    assert 0 <= j < |body| && body[j] == '.';
    assert body[j] in body && !IsDigit(body[j]);
  }
}
