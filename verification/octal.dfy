/**
 * The mode argument of `permisos`, read with `strtol(modo, NULL, 8)`: the
 * value of the longest leading run of octal digits, 0 when there is none.
 */
module Octal {

  predicate IsOctalDigit(c: char) {
    '0' <= c <= '7'
  }

  predicate AllOctal(s: string) {
    forall i :: 0 <= i < |s| ==> IsOctalDigit(s[i])
  }

  function DigitValue(c: char): (d: nat)
    requires IsOctalDigit(c)
    ensures d < 8
  {
    (c as int) - ('0' as int)
  }

  function DigitChar(d: nat): (c: char)
    requires d < 8
    ensures IsOctalDigit(c) && DigitValue(c) == d
  {
    ('0' as int + d) as char
  }

  function Pow8(k: nat): (p: nat)
    ensures p >= 1
  {
    if k == 0 then 1 else 8 * Pow8(k - 1)
  }

  /** The value of an octal numeral, most significant digit first. */
  function OctalValue(ds: string): (v: nat)
    requires AllOctal(ds)
    ensures v < Pow8(|ds|)
    decreases |ds|
  {
    if ds == [] then 0
    else OctalValue(ds[..|ds| - 1]) * 8 + DigitValue(ds[|ds| - 1])
  }

  /** The length of the longest leading run of octal digits. */
  function OctalPrefixLength(s: string): (n: nat)
    ensures n <= |s|
    ensures forall i :: 0 <= i < n ==> IsOctalDigit(s[i])
    ensures n < |s| ==> !IsOctalDigit(s[n])
  {
    if |s| > 0 && IsOctalDigit(s[0]) then 1 + OctalPrefixLength(s[1..]) else 0
  }

  /** `strtol(modo, NULL, 8)` on a mode token. */
  function ParseOctal(s: string): (v: nat)
    ensures v < Pow8(OctalPrefixLength(s))
  {
    OctalValue(s[..OctalPrefixLength(s)])
  }

  /** The octal numeral of `n`, without leading zeros. */
  function OctalString(n: nat): (s: string)
    ensures |s| > 0 && AllOctal(s)
  {
    if n < 8 then [DigitChar(n)] else OctalString(n / 8) + [DigitChar(n % 8)]
  }

  /** Reading stops at the first character that is not an octal digit. */
  lemma ParseStopsAtNonDigit(ds: string, tail: string)
    requires AllOctal(ds)
    requires tail == [] || !IsOctalDigit(tail[0])
    ensures ParseOctal(ds + tail) == OctalValue(ds)
  {
    var s := ds + tail;
    assert forall i :: 0 <= i < |ds| ==> s[i] == ds[i];
    assert |tail| > 0 ==> s[|ds|] == tail[0];
    assert OctalPrefixLength(s) == |ds|;
    assert s[..|ds|] == ds;
  }

  /** Appending a digit to a numeral multiplies its value by eight and adds the digit. */
  lemma OctalValueSnoc(ds: string, d: nat)
    requires AllOctal(ds) && d < 8
    ensures AllOctal(ds + [DigitChar(d)])
    ensures OctalValue(ds + [DigitChar(d)]) == OctalValue(ds) * 8 + d
  {
  }

  /** Round trip: the numeral of `n` is read back as `n`. */
  lemma {:induction false} OctalStringValue(n: nat)
    ensures OctalValue(OctalString(n)) == n
    decreases n
  {
    if n < 8 {
      assert OctalString(n)[..0] == [];
    } else {
      OctalStringValue(n / 8);
      OctalValueSnoc(OctalString(n / 8), n % 8);
    }
  }

  /** `permisos` reads back any mode written as an octal numeral. */
  lemma ParseOctalString(n: nat)
    ensures ParseOctal(OctalString(n)) == n
  {
    OctalStringValue(n);
    ParseStopsAtNonDigit(OctalString(n), []);
    assert OctalString(n) + [] == OctalString(n);
  }

  /** The mode of `permisos 644 a.txt`: read as octal, `rw-r--r--`. */
  lemma Mode644()
    ensures ParseOctal("644") == 420
  {
    ParseStopsAtNonDigit("644", []);
    assert "644" + [] == "644";
    assert "644"[..2] == "64" && "64"[..1] == "6" && "6"[..0] == "";
  }

  /** Reading stops at the first non-octal character; no digits at all read as 0. */
  lemma ModeStopsEarly()
    ensures ParseOctal("75x9") == 61
    ensures ParseOctal("8") == 0
    ensures ParseOctal("rw") == 0
  {
  }
}
