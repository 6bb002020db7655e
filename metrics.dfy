/** What a collector sends on its output channel, and the decimal labels it uses. */
module Metrics {

  /** Go's `uint64`, the type of topology ids and throttle counts. */
  newtype u64 = x: int | 0 <= x < 0x1_0000_0000_0000_0000

  /** The value type passed to `prometheus.MustNewConstMetric`. */
  datatype ValueKind = Counter | Gauge

  /**
   * One constant metric: the fully qualified name of the descriptor it is sent
   * through, the label values in the order they are passed, the value and its kind.
   */
  datatype Sample = Sample(family: string, labels: seq<string>, value: real, kind: ValueKind)

  function DigitChar(d: nat): char
    requires d < 10
  {
    ('0' as int + d) as char
  }

  function DigitValue(c: char): int
  {
    c as int - '0' as int
  }

  /** `strconv.Itoa` / `strconv.FormatUint(_, 10)` on a non-negative number. */
  function Decimal(n: nat): (s: string)
    ensures |s| >= 1
    ensures forall k :: 0 <= k < |s| ==> '0' <= s[k] <= '9'
    ensures |s| == 1 <==> n < 10
    ensures |s| > 1 ==> s[0] != '0'
  {
    if n < 10 then [DigitChar(n)] else Decimal(n / 10) + [DigitChar(n % 10)]
  }

  /** Reading a string of decimal digits back (the partner of Decimal). */
  function ParseDecimal(s: string): int
  {
    if |s| == 0 then 0 else ParseDecimal(s[..|s| - 1]) * 10 + DigitValue(s[|s| - 1])
  }

  lemma {:induction false} DecimalRoundTrip(n: nat)
    ensures ParseDecimal(Decimal(n)) == n
  {
    if n >= 10 {
      var s := Decimal(n / 10);
      assert (s + [DigitChar(n % 10)])[..|s|] == s;
      DecimalRoundTrip(n / 10);
    }
  }

  /** Distinct numbers get distinct labels. */
  lemma DecimalInjective(a: nat, b: nat)
    requires a != b
    ensures Decimal(a) != Decimal(b)
  {
    DecimalRoundTrip(a);
    DecimalRoundTrip(b);
  }
}
