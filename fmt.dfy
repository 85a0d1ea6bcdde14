/** Go's `fmt.Sprintf("%x", n)` on an unsigned integer: lower-case
    hexadecimal, no leading zeros, "0" for zero. */
module GoFmt {

  const Digits: string := "0123456789abcdef"

  function HexDigit(d: nat): char
    requires d < 16
  {
    Digits[d]
  }

  /** Value of a hexadecimal digit character (0 for anything else). */
  function DigitValue(c: char): nat
  {
    if '0' <= c <= '9' then c as int - '0' as int
    else if 'a' <= c <= 'f' then c as int - 'a' as int + 10
    else 0
  }

  /** The `%x` rendering of n. */
  function Hex(n: nat): (r: string)
    ensures |r| >= 1
    decreases n
  {
    if n < 16 then [HexDigit(n)] else Hex(n / 16) + [HexDigit(n % 16)]
  }

  /** Reads a hexadecimal numeral, most significant digit first. */
  function HexValue(s: string): nat
  {
    if |s| == 0 then 0 else 16 * HexValue(s[..|s| - 1]) + DigitValue(s[|s| - 1])
  }

  lemma DigitRoundTrip(d: nat)
    requires d < 16
    ensures DigitValue(HexDigit(d)) == d
  {
  }

  /** Reading the rendering of n gives n back. */
  lemma {:induction false} HexRoundTrip(n: nat)
    ensures HexValue(Hex(n)) == n
    decreases n
  {
    if n < 16 {
      DigitRoundTrip(n);
      assert Hex(n)[..0] == "";
    } else {
      HexRoundTrip(n / 16);
      DigitRoundTrip(n % 16);
      var r := Hex(n);
      assert r[..|r| - 1] == Hex(n / 16);
      assert r[|r| - 1] == HexDigit(n % 16);
    }
  }

  /** The rendering uses lower-case hexadecimal digits only and starts
      with '0' exactly when n is zero (then it is "0"). */
  lemma {:induction false} HexCanonical(n: nat)
    ensures forall i :: 0 <= i < |Hex(n)| ==> Hex(n)[i] in Digits
    ensures Hex(n)[0] == '0' <==> n == 0
    ensures n == 0 ==> Hex(n) == "0"
    decreases n
  {
    if n >= 16 {
      HexCanonical(n / 16);
      assert Hex(n)[0] == Hex(n / 16)[0];
      forall i | 0 <= i < |Hex(n)|
        ensures Hex(n)[i] in Digits
      {
        if i < |Hex(n / 16)| {
          assert Hex(n)[i] == Hex(n / 16)[i];
        }
      }
    }
  }

  /** Distinct numbers get distinct renderings. */
  lemma HexInjective(a: nat, b: nat)
    requires Hex(a) == Hex(b)
    ensures a == b
  {
    HexRoundTrip(a);
    HexRoundTrip(b);
  }
}
