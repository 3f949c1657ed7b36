/** Bytes, C string literals and the decimal text that "%d" prints. */
module Bytes {

  type byte = x: int | 0 <= x < 256

  /** The bytes of a C string literal. */
  function Ascii(s: string): (b: seq<byte>)
    ensures |b| == |s|
  {
    seq(|s|, i requires 0 <= i < |s| => (s[i] as int) % 256)
  }

  /** What printf("%d") writes for a count or a process id. */
  function Decimal(n: nat): (text: seq<byte>)
    ensures |text| > 0
  {
    if n < 10 then [48 + n] else Decimal(n / 10) + [48 + n % 10]
  }

  /** What aroop_txt_to_int() reads back from a run of digits. */
  function DecimalValue(text: seq<byte>): int
  {
    if |text| == 0 then 0 else DecimalValue(text[..|text| - 1]) * 10 + (text[|text| - 1] as int - 48)
  }

  lemma {:induction false} DecimalRoundTrip(n: nat)
    ensures DecimalValue(Decimal(n)) == n
  {
    if n < 10 {
      assert Decimal(n)[..0] == [];
      assert DecimalValue(Decimal(n)[..0]) == 0;
    } else {
      DecimalRoundTrip(n / 10);
      assert Decimal(n)[..|Decimal(n)| - 1] == Decimal(n / 10);
    }
  }

  /** Two counts print alike only if they are the same count. */
  lemma DecimalInjective(m: nat, n: nat)
    requires Decimal(m) == Decimal(n)
    ensures m == n
  {
    DecimalRoundTrip(m);
    DecimalRoundTrip(n);
  }
}
