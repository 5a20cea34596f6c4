/** Hexadecimal numbers in text of fixed width. */
module Hex {
  import opened Wrappers

  const DIGITS := "0123456789abcdef"

  function Pow16(w: nat): (p: nat)
    ensures p > 0
  {
    if w == 0 then 1 else 16 * Pow16(w - 1)
  }

  /** printf("%0<w>x") of a number that fits. */
  function Hexed(n: nat, w: nat): (s: string)
    ensures |s| == w
  {
    if w == 0 then "" else Hexed(n / 16, w - 1) + [DIGITS[n % 16]]
  }

  function Nibble(c: char): Option<nat>
  {
    if '0' <= c <= '9' then Some(c as nat - '0' as nat)
    else if 'a' <= c <= 'f' then Some(c as nat - 'a' as nat + 10)
    else if 'A' <= c <= 'F' then Some(c as nat - 'A' as nat + 10)
    else None
  }

  /** The number written by hexadecimal digits, most significant first. */
  function Unhex(s: string): Option<nat>
  {
    if s == "" then Some(0)
    else
      var hi, lo := Unhex(s[..|s| - 1]), Nibble(s[|s| - 1]);
      if hi.None? || lo.None? then None else Some(16 * hi.value + lo.value)
  }

  lemma NibbleDigit(d: nat)
    requires d < 16
    ensures Nibble(DIGITS[d]) == Some(d)
  {
  }

  lemma {:induction false} UnhexHexed(n: nat, w: nat)
    requires n < Pow16(w)
    ensures Unhex(Hexed(n, w)) == Some(n)
  {
    if w > 0 {
      var s := Hexed(n, w);
      UnhexHexed(n / 16, w - 1);
      NibbleDigit(n % 16);
      assert s[..|s| - 1] == Hexed(n / 16, w - 1);
    }
  }

  lemma Quotient(d: nat, k: nat, x: nat)
    requires x < d
    ensures (d * k + x) / d == k
  {
    var q := (d * k + x) / d;
    assert d * k + x == d * q + (d * k + x) % d;
    assert q < k ==> d * (q + 1) <= d * k;
    assert q > k ==> d * (k + 1) <= d * q;
  }

  lemma LastDigit(n: nat, p: nat)
    requires p > 0
    ensures n % (16 * p) == 16 * (n / 16 % p) + n % 16
  {
    var q, r := n / 16, n % 16;
    var k, m := q / p, q % p;
    assert q == p * k + m && n == 16 * q + r;
    assert 16 * (p * k) == (16 * p) * k;
    Quotient(16 * p, k, 16 * m + r);
  }

  /** Of a number that does not fit, the digits give what is left of it. */
  lemma {:induction false} UnhexCut(n: nat, w: nat)
    ensures Unhex(Hexed(n, w)) == Some(n % Pow16(w))
  {
    if w > 0 {
      var s := Hexed(n, w);
      UnhexCut(n / 16, w - 1);
      NibbleDigit(n % 16);
      assert s[..|s| - 1] == Hexed(n / 16, w - 1);
      LastDigit(n, Pow16(w - 1));
    }
  }

  lemma {:induction false} UnhexBad(s: string, i: nat)
    requires i < |s| && Nibble(s[i]).None?
    ensures Unhex(s).None?
  {
    if i < |s| - 1 {
      UnhexBad(s[..|s| - 1], i);
    }
  }

  /** The widths in use, with what they can hold. */
  lemma Widths()
    ensures Pow16(4) == 0x10000 && Pow16(8) == 0x1_0000_0000
  {
    assert Pow16(2) == 256;
    assert Pow16(4) == 16 * (16 * Pow16(2));
    assert Pow16(6) == 16 * (16 * Pow16(4));
    assert Pow16(8) == 16 * (16 * Pow16(6));
  }
}
