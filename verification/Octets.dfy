/** Octets and the three text/number encodings the server uses on the wire:
    fixed-width integers in either byte order, decimal numbers, and
    NUL-terminated strings. */
module Octets {

  newtype byte = x: int | 0 <= x < 256

  /** The values of a C++ `size_t` are taken modulo this number. */
  const SIZE_MOD: nat := 0x1_0000_0000_0000_0000

  /** No byte vector or string is as long as this. */
  const MAX_SIZE: nat := 0x8000_0000_0000_0000

  // ---------------------------------------------------------------- sequences

  function Zeros(n: nat): (r: seq<byte>)
    ensures |r| == n
    ensures forall i :: 0 <= i < n ==> r[i] == 0
  {
    seq(n, _ => 0)
  }

  /** Writes `s` over the front of `buf`, leaving the rest of `buf` in place. */
  function Overwrite(buf: seq<byte>, s: seq<byte>): (r: seq<byte>)
    requires |s| <= |buf|
    ensures |r| == |buf|
    ensures r[..|s|] == s && r[|s|..] == buf[|s|..]
  {
    s + buf[|s|..]
  }

  /** Writes `s` into `buf` at `at`. */
  function Splice(buf: seq<byte>, at: nat, s: seq<byte>): (r: seq<byte>)
    requires at + |s| <= |buf|
    ensures |r| == |buf|
    ensures r[..at] == buf[..at]
    ensures r[at..at + |s|] == s
    ensures r[at + |s|..] == buf[at + |s|..]
  {
    buf[..at] + s + buf[at + |s|..]
  }

  function Reversed(s: seq<byte>): (r: seq<byte>)
    ensures |r| == |s|
  {
    if s == [] then [] else Reversed(s[1..]) + [s[0]]
  }

  // ------------------------------------------------------- fixed-width integers

  function Pow256(w: nat): (r: nat)
    ensures r > 0
  {
    if w == 0 then 1 else 256 * Pow256(w - 1)
  }

  /** The low `w` bytes of `v`, most significant first. */
  function BeBytes(v: nat, w: nat): (r: seq<byte>)
    ensures |r| == w
  {
    if w == 0 then [] else BeBytes(v / 256, w - 1) + [(v % 256) as byte]
  }

  /** The low `w` bytes of `v`, least significant first. */
  function LeBytes(v: nat, w: nat): (r: seq<byte>)
    ensures |r| == w
  {
    if w == 0 then [] else [(v % 256) as byte] + LeBytes(v / 256, w - 1)
  }

  function BeNat(s: seq<byte>): (r: nat)
  {
    if s == [] then 0 else 256 * BeNat(s[..|s| - 1]) + s[|s| - 1] as nat
  }

  function LeNat(s: seq<byte>): (r: nat)
  {
    if s == [] then 0 else s[0] as nat + 256 * LeNat(s[1..])
  }

  /** Two's complement: the unsigned image of a signed value of width `w`. */
  function ToUnsigned(v: int, w: nat): (r: nat)
    ensures r < Pow256(w)
  {
    v % Pow256(w)
  }

  function FromUnsigned(u: nat, w: nat, signed: bool): (r: int)
  {
    if signed && 2 * u >= Pow256(w) then u - Pow256(w) else u
  }

  /** The values a C++ integer of width `w` can hold. */
  predicate Representable(v: int, w: nat, signed: bool) {
    var m: int := Pow256(w);
    if signed then -m <= 2 * v < m else 0 <= v < m
  }

  lemma ModUnique(x: int, m: nat, q: int, r: int)
    requires m > 0 && 0 <= r < m && x == q * m + r
    ensures x % m == r
  {
    var d: int := x / m - q;
    assert d * m == r - x % m;
    assert d >= 1 ==> d * m >= m;
    assert d <= -1 ==> d * m <= -1 * m;
  }

  lemma ModStep(v: nat, p: nat)
    requires p > 0
    ensures 256 * ((v / 256) % p) + v % 256 == v % (256 * p)
  {
    var q, r := (v / 256) / p, (v / 256) % p;
    assert v == q * (256 * p) + (256 * r + v % 256) by {
      assert v / 256 == q * p + r;
      assert v == 256 * (q * p + r) + v % 256;
    }
    assert 256 * r + v % 256 < 256 * p;
    ModUnique(v, 256 * p, q, 256 * r + v % 256);
  }

  lemma {:induction false} BeBytesValue(v: nat, w: nat)
    ensures BeNat(BeBytes(v, w)) == v % Pow256(w)
  {
    if w > 0 {
      BeBytesValue(v / 256, w - 1);
      ModStep(v, Pow256(w - 1));
      assert BeBytes(v, w)[..w - 1] == BeBytes(v / 256, w - 1);
    }
  }

  lemma {:induction false} LeBytesReversed(v: nat, w: nat)
    ensures Reversed(LeBytes(v, w)) == BeBytes(v, w)
  {
    if w > 0 {
      LeBytesReversed(v / 256, w - 1);
      assert LeBytes(v, w)[1..] == LeBytes(v / 256, w - 1);
    }
  }

  /** Reading big-endian is reading little-endian from the other end. */
  lemma {:induction false} BeIsReversedLe(s: seq<byte>)
    ensures BeNat(s) == LeNat(Reversed(s))
  {
    if s != [] {
      BeIsReversedLe(s[..|s| - 1]);
      ReversedSnoc(s[..|s| - 1], s[|s| - 1]);
      assert s == s[..|s| - 1] + [s[|s| - 1]];
      assert Reversed(s)[1..] == Reversed(s[..|s| - 1]);
    }
  }

  lemma {:induction false} ReversedSnoc(s: seq<byte>, x: byte)
    ensures Reversed(s + [x]) == [x] + Reversed(s)
  {
    if s == [] {
      assert s + [x] == [x];
    } else {
      ReversedSnoc(s[1..], x);
      assert (s + [x])[1..] == s[1..] + [x];
    }
  }

  lemma {:induction false} ReversedTwice(s: seq<byte>)
    ensures Reversed(Reversed(s)) == s
  {
    if s != [] {
      ReversedTwice(s[1..]);
      ReversedSnoc(Reversed(s[1..]), s[0]);
    }
  }

  /** Both byte orders decode to the value that was encoded, for every width and
      every value of the (signed or unsigned) type. */
  lemma {:induction false} IntegerRoundTrip(v: int, w: nat, signed: bool)
    requires Representable(v, w, signed)
    ensures FromUnsigned(BeNat(BeBytes(ToUnsigned(v, w), w)), w, signed) == v
    ensures FromUnsigned(LeNat(LeBytes(ToUnsigned(v, w), w)), w, signed) == v
  {
    var m, u := Pow256(w), ToUnsigned(v, w);
    BeBytesValue(u, w);
    ModUnique(u, m, 0, u);
    LeBytesReversed(u, w);
    ReversedTwice(LeBytes(u, w));
    BeIsReversedLe(BeBytes(u, w));
    if v < 0 {
      ModUnique(v, m, -1, v + m);
    } else {
      ModUnique(v, m, 0, v);
    }
  }

  lemma {:induction false} BeBytesTwo(v: nat)
    ensures BeBytes(v, 2) == [(v / 256 % 256) as byte, (v % 256) as byte]
  {
    assert BeBytes(v / 256, 1) == BeBytes(v / 256 / 256, 0) + [(v / 256 % 256) as byte];
  }

  lemma BeNatTwo(a: byte, b: byte)
    ensures BeNat([a, b]) == 256 * a as nat + b as nat
  {
    assert [a, b][..1] == [a];
    assert BeNat([a]) == 256 * BeNat([a][..0]) + a as nat;
  }

  // ------------------------------------------------------------------ strings

  predicate NulFree(s: seq<byte>) {
    forall i :: 0 <= i < |s| ==> s[i] != 0
  }

  /** The part of `s` before its first NUL, or all of `s` when there is none
      (`std::find(begin, end, 0)`). */
  function UpToNul(s: seq<byte>): (r: seq<byte>)
    ensures r <= s && NulFree(r)
    ensures |r| == |s| || s[|r|] == 0
  {
    if s == [] || s[0] == 0 then [] else [s[0]] + UpToNul(s[1..])
  }

  /** `UpToNul` is determined by its contract: any NUL-free prefix that ends at
      a NUL, or at the end, is it. */
  lemma {:induction false} UpToNulUnique(s: seq<byte>, r: seq<byte>)
    requires r <= s && NulFree(r)
    requires |r| == |s| || s[|r|] == 0
    ensures UpToNul(s) == r
  {
    var u := UpToNul(s);
    if |u| < |r| {
      assert false;
    } else if |r| < |u| {
      assert false;
    }
    assert u == s[..|u|] && r == s[..|r|];
  }

  function LowerByte(b: byte): (r: byte) {
    if 65 <= b <= 90 then b + 32 else b
  }

  /** `do_lower`: ASCII upper-case letters become lower-case. */
  function Lower(s: seq<byte>): (r: seq<byte>)
    ensures |r| == |s|
  {
    seq(|s|, i requires 0 <= i < |s| => LowerByte(s[i]))
  }

  // ----------------------------------------------------------------- decimals

  predicate IsDigit(b: byte) {
    48 <= b <= 57
  }

  /** `is_digit_str`: at least one character, and digits only. */
  predicate IsDigitStr(s: seq<byte>) {
    |s| > 0 && forall i :: 0 <= i < |s| ==> IsDigit(s[i])
  }

  function DecimalValue(s: seq<byte>): (r: nat)
    requires forall i :: 0 <= i < |s| ==> IsDigit(s[i])
  {
    if s == [] then 0 else
      assert IsDigit(s[|s| - 1]);
      10 * DecimalValue(s[..|s| - 1]) + (s[|s| - 1] as int - 48)
  }

  /** `std::to_string` of a non-negative number. */
  function Decimal(n: nat): (r: seq<byte>)
    ensures IsDigitStr(r)
  {
    if n < 10 then [(48 + n) as byte] else Decimal(n / 10) + [(48 + n % 10) as byte]
  }

  lemma {:induction false} DecimalRoundTrip(n: nat)
    ensures DecimalValue(Decimal(n)) == n
  {
    if n < 10 {
      assert Decimal(n)[..0] == [];
    } else {
      DecimalRoundTrip(n / 10);
      assert Decimal(n)[..|Decimal(n)| - 1] == Decimal(n / 10);
    }
  }

  /** A number below 10^k prints in at most k characters. */
  lemma {:induction false} DecimalLength(n: nat, k: nat, bound: nat)
    requires n < bound && bound <= Pow10(k) && k > 0
    ensures |Decimal(n)| <= k
    decreases k
  {
    if n >= 10 {
      assert k > 1 by {
        assert Pow10(1) == 10 * Pow10(0);
      }
      DecimalLength(n / 10, k - 1, n / 10 + 1);
    }
  }

  function Pow10(k: nat): (r: nat)
    ensures r > 0
  {
    if k == 0 then 1 else 10 * Pow10(k - 1)
  }

  lemma OneMorePlace(base: nat, x: nat, p: nat, y: nat, d: nat)
    ensures base * (x * p + y) + d == x * (base * p) + (base * y + d)
  {
    assert base * (x * p) == x * (base * p);
  }

  /** Decimal place value: a digit counts for itself, and the digits in front for as
      many powers of ten as digits follow them. */
  lemma {:induction false} DecimalPlaces(a: seq<byte>, b: seq<byte>)
    requires forall i :: 0 <= i < |a| ==> IsDigit(a[i])
    requires forall i :: 0 <= i < |b| ==> IsDigit(b[i])
    ensures DecimalValue(a + b) == DecimalValue(a) * Pow10(|b|) + DecimalValue(b)
    ensures Pow10(0) == 1 && Pow10(|b| + 1) == 10 * Pow10(|b|)
    ensures |b| == 1 ==> DecimalValue(b) == b[0] as int - 48
    decreases |b|
  {
    if b == [] {
      assert a + b == a;
    } else {
      var front, x := b[..|b| - 1], b[|b| - 1];
      DecimalPlaces(a, front);
      DecimalSnoc(front, x);
      DecimalSnoc(a + front, x);
      OneMorePlace(10, DecimalValue(a), Pow10(|front|), DecimalValue(front), x as int - 48);
      assert b == front + [x] && a + b == a + front + [x];
    }
  }

  lemma {:induction false} DecimalSnoc(s: seq<byte>, x: byte)
    requires IsDigit(x) && forall i :: 0 <= i < |s| ==> IsDigit(s[i])
    ensures DecimalValue(s + [x]) == 10 * DecimalValue(s) + (x as int - 48)
  {
    assert (s + [x])[..|s|] == s;
  }

  lemma {:induction false} DecimalLeads(n: nat)
    ensures n < 10 ==> Decimal(n) == [(48 + n) as byte]
    ensures n >= 10 ==> |Decimal(n)| > 1 && Decimal(n)[0] != 48
  {
    if n >= 10 {
      DecimalLeads(n / 10);
    }
  }

  /** A digit string without a leading zero is the printed form of its value. */
  lemma {:induction false} DecimalUnique(s: seq<byte>)
    requires IsDigitStr(s) && (|s| == 1 || s[0] != 48)
    ensures Decimal(DecimalValue(s)) == s
    ensures |s| > 1 ==> DecimalValue(s) >= 10
  {
    var front := s[..|s| - 1];
    if front == [] {
      assert s == [s[0]];
    } else {
      DecimalUnique(front);
      assert DecimalValue(front) >= 1 by {
        if |front| == 1 {
          assert front[..0] == [];
        }
      }
    }
  }

  /** Place value of big-endian integers: a byte counts for itself, and the bytes in
      front for as many powers of 256 as bytes follow them. */
  lemma {:induction false} BePlaces(a: seq<byte>, b: seq<byte>)
    ensures BeNat(a + b) == BeNat(a) * Pow256(|b|) + BeNat(b)
    ensures Pow256(0) == 1 && Pow256(|b| + 1) == 256 * Pow256(|b|)
    ensures |b| == 1 ==> BeNat(b) == b[0] as nat
    decreases |b|
  {
    if b == [] {
      assert a + b == a;
    } else {
      var front, x := b[..|b| - 1], b[|b| - 1];
      BePlaces(a, front);
      BeSnoc(front, x);
      BeSnoc(a + front, x);
      OneMorePlace(256, BeNat(a), Pow256(|front|), BeNat(front), x as nat);
      assert b == front + [x] && a + b == a + front + [x];
    }
  }

  lemma {:induction false} BeSnoc(s: seq<byte>, x: byte)
    ensures BeNat(s + [x]) == 256 * BeNat(s) + x as nat
  {
    assert (s + [x])[..|s|] == s;
  }

  /** Two's complement: the bits of a negative value are those of the value one whole
      range above. */
  lemma {:induction false} TwosComplement(v: int, w: nat, signed: bool)
    requires Representable(v, w, signed)
    ensures ToUnsigned(v, w) == if v < 0 then v + Pow256(w) else v
  {
    ModUnique(v, Pow256(w), if v < 0 then -1 else 0, if v < 0 then v + Pow256(w) else v);
  }

  // --------------------------------------------------------------------- text

  function Ascii(s: string): (r: seq<byte>)
    ensures |r| == |s|
  {
    seq(|s|, i requires 0 <= i < |s| => (s[i] as int % 256) as byte)
  }

  /** The same text up to upper and lower case, where `t` has no upper case. */
  predicate SameLetters(s: seq<byte>, t: seq<byte>) {
    |s| == |t| && forall i :: 0 <= i < |t| ==> s[i] == t[i] || (97 <= t[i] <= 122 && s[i] == t[i] - 32)
  }

  /** Lower case makes texts equal exactly if they are the same up to case. */
  lemma LowerMatches(s: seq<byte>, t: seq<byte>)
    requires forall i :: 0 <= i < |t| ==> !(65 <= t[i] <= 90)
    ensures Lower(s) == t <==> SameLetters(s, t)
  {
    if SameLetters(s, t) {
      assert forall i :: 0 <= i < |s| ==> Lower(s)[i] == t[i];
    }
    if Lower(s) == t {
      forall i | 0 <= i < |t| ensures s[i] == t[i] || (97 <= t[i] <= 122 && s[i] == t[i] - 32) {
        assert Lower(s)[i] == LowerByte(s[i]);
      }
    }
  }
}
