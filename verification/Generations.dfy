/**
  Provisioning generations: lower-case UUIDv7 strings compared as JavaScript compares strings.
  The binding table treats a generation as the 128-bit number it spells; this module shows that the
  string order, and the timestamp read out of the text, are the order and the high bits of that number.
*/
module Generations {
  import opened Hexadecimal

  /** The order of the JavaScript `<` on strings. */
  predicate Less(a: string, b: string) {
    b != "" && (a == "" || a[0] < b[0] || (a[0] == b[0] && Less(a[1..], b[1..])))
  }

  function Insert(s: string, k: nat, c: char): (r: string)
    requires k <= |s|
    ensures |r| == |s| + 1
  {
    s[..k] + [c] + s[k..]
  }

  /** How many tails, timestamps and generations there are: 80, 48 and 128 bits. */
  const TAILS: nat := 0x1_0000_0000_0000_0000_0000
  const TIMES: nat := 0x1_0000_0000_0000
  const SPACE: nat := 0x1_0000_0000_0000_0000_0000_0000_0000_0000

  /** The text of a generation, in groups of 8, 4, 4, 4 and 12 digits. */
  function Format(g: nat): (s: string)
    ensures |s| == 36
  {
    Insert(Insert(Insert(Insert(Hex(g, 32), 8, '-'), 13, '-'), 18, '-'), 23, '-')
  }

  /** The timestamp the source reads out of a generation. */
  function TimestampOf(s: string): nat
    requires |s| == 36
  {
    ParseHex(s[..8] + s[9..13])
  }

  /** The value of the same 48 bits of the number. */
  function Timestamp(g: nat): nat { g / TAILS }

  lemma {:induction false} LessOfConcat(a: string, a': string, b: string, b': string)
    requires |a| == |b|
    ensures Less(a + a', b + b') <==> Less(a, b) || (a == b && Less(a', b'))
  {
    if a == "" {
      assert a + a' == a' && b + b' == b';
    } else {
      assert (a + a')[1..] == a[1..] + a' && (b + b')[1..] == b[1..] + b';
      assert a == [a[0]] + a[1..] && b == [b[0]] + b[1..];
      LessOfConcat(a[1..], a', b[1..], b');
    }
  }

  lemma DigitOrder(m: nat, n: nat)
    requires m < 16 && n < 16
    ensures (Digit(m) < Digit(n) <==> m < n) && (Digit(m) == Digit(n) <==> m == n)
    ensures Less([Digit(m)], [Digit(n)]) <==> m < n
  {
    assert [Digit(m)][1..] == "" && [Digit(n)][1..] == "";
  }

  lemma HighDigitsFirst(m: nat, n: nat)
    ensures m < n <==> m / 16 < n / 16 || (m / 16 == n / 16 && m % 16 < n % 16)
    ensures m == n <==> m / 16 == n / 16 && m % 16 == n % 16
  {
  }

  lemma SameEnds(a: string, c: char, b: string, d: char)
    requires |a| == |b|
    ensures a + [c] == b + [d] <==> a == b && c == d
  {
    assert (a + [c])[..|a|] == a && (b + [d])[..|b|] == b;
    assert (a + [c])[|a|] == c && (b + [d])[|b|] == d;
  }

  /** Equal width makes text order numeric order. */
  lemma {:induction false} HexOrder(m: nat, n: nat, width: nat)
    requires m < Pow16(width) && n < Pow16(width)
    ensures Less(Hex(m, width), Hex(n, width)) <==> m < n
    ensures Hex(m, width) == Hex(n, width) <==> m == n
  {
    if width > 0 {
      HexOrder(m / 16, n / 16, width - 1);
      var hm, hn := Hex(m / 16, width - 1), Hex(n / 16, width - 1);
      var dm, dn := Digit(m % 16), Digit(n % 16);
      assert Hex(m, width) == hm + [dm] && Hex(n, width) == hn + [dn];
      LessOfConcat(hm, [dm], hn, [dn]);
      SameEnds(hm, dm, hn, dn);
      DigitOrder(m % 16, n % 16);
      HighDigitsFirst(m, n);
      hide Less, Hex, Digit, Pow16;
    }
  }

  lemma InsertOrder(a: string, b: string, k: nat, c: char)
    requires |a| == |b| && k <= |a|
    ensures Less(Insert(a, k, c), Insert(b, k, c)) <==> Less(a, b)
  {
    var ta, tb := a[k..], b[k..];
    assert a == a[..k] + ta && b == b[..k] + tb;
    LessOfConcat(a[..k], ta, b[..k], tb);
    assert Insert(a, k, c) == a[..k] + ([c] + ta) && Insert(b, k, c) == b[..k] + ([c] + tb);
    LessOfConcat(a[..k], [c] + ta, b[..k], [c] + tb);
    LessOfConcat([c], ta, [c], tb);
    assert [c][1..] == "";
  }

  lemma Powers()
    ensures Pow16(20) == TAILS && Pow16(12) == TIMES && Pow16(32) == SPACE
  {
  }

  /** Comparing generations as strings is comparing them as numbers. */
  lemma OrderIsNumeric(m: nat, n: nat)
    requires m < SPACE && n < SPACE
    ensures Less(Format(m), Format(n)) <==> m < n
  {
    Powers();
    var a0, b0 := Hex(m, 32), Hex(n, 32);
    var a1, b1 := Insert(a0, 8, '-'), Insert(b0, 8, '-');
    var a2, b2 := Insert(a1, 13, '-'), Insert(b1, 13, '-');
    var a3, b3 := Insert(a2, 18, '-'), Insert(b2, 18, '-');
    HexOrder(m, n, 32);
    InsertOrder(a0, b0, 8, '-');
    InsertOrder(a1, b1, 13, '-');
    InsertOrder(a2, b2, 18, '-');
    InsertOrder(a3, b3, 23, '-');
  }

  lemma DivDiv(n: nat, p: nat)
    requires p > 0
    ensures n / (16 * p) == (n / 16) / p
  {
    var q, r := (n / 16) / p, (n / 16) % p;
    assert n == 16 * p * q + (16 * r + n % 16) by {
      assert n / 16 == p * q + r;
    }
    assert 16 * r + n % 16 < 16 * p;
    QuotientUnique(n, 16 * p, q, 16 * r + n % 16);
  }

  lemma Multiples(d: nat, e: int)
    ensures e >= 1 ==> d * e >= d
    ensures e <= -1 ==> d * e <= 0 - d
  {
    if e >= 1 {
      assert d * e == d + d * (e - 1);
    } else if e <= -1 {
      assert d * e == d * (e + 1) - d;
    }
  }

  lemma QuotientUnique(n: nat, d: nat, q: nat, r: nat)
    requires d > 0 && r < d && n == d * q + r
    ensures n / d == q
  {
    var e := n / d - q;
    assert d * (n / d) + n % d == d * q + r;
    assert d * e == r - n % d by {
      assert d * (n / d) - d * q == d * (n / d - q);
    }
    Multiples(d, e);
  }

  lemma {:induction false} HexPrefix(n: nat, width: nat, dropped: nat)
    ensures Hex(n, width + dropped)[..width] == Hex(n / Pow16(dropped), width)
  {
    if dropped > 0 {
      HexPrefix(n / 16, width, dropped - 1);
      DivDiv(n, Pow16(dropped - 1));
      assert Hex(n, width + dropped)[..width] == Hex(n / 16, width + dropped - 1)[..width];
    }
  }

  lemma HighDigits(n: nat, width: nat, dropped: nat, high: nat)
    requires high < Pow16(width) && high == n / Pow16(dropped)
    ensures ParseHex(Hex(n, width + dropped)[..width]) == high
  {
    HexPrefix(n, width, dropped);
    ParseOfHex(high, width);
  }

  lemma DashesSkipped(h: string, a: string, b: string, c: string, d: string)
    requires |h| == 32 && a == Insert(h, 8, '-') && b == Insert(a, 13, '-')
    requires c == Insert(b, 18, '-') && d == Insert(c, 23, '-')
    ensures d[..8] + d[9..13] == h[..12]
  {
    assert d[..13] == c[..13] == b[..13] == a[..13];
    assert d[..8] == d[..13][..8] && d[9..13] == d[..13][9..];
    assert a[..13][..8] == h[..8] && a[..13][9..] == h[8..12];
  }

  /** Reading the timestamp out of the text reads the high 48 bits of the number. */
  lemma TimestampIsHighBits(g: nat)
    requires g < SPACE
    ensures TimestampOf(Format(g)) == Timestamp(g) < TIMES
  {
    var h := Hex(g, 32);
    var a := Insert(h, 8, '-');
    var b := Insert(a, 13, '-');
    var c := Insert(b, 18, '-');
    DashesSkipped(h, a, b, c, Insert(c, 23, '-'));
    Powers();
    HighDigits(g, 12, 20, Timestamp(g));
  }

  /** A generation made for the next timestamp is later than the old one, whatever its random tail is. */
  lemma NextTimestampWins(g: nat, tail: nat)
    requires g < SPACE && Timestamp(g) + 1 < TIMES && tail < TAILS
    ensures g < (Timestamp(g) + 1) * TAILS + tail < SPACE
    ensures Less(Format(g), Format((Timestamp(g) + 1) * TAILS + tail))
  {
    OrderIsNumeric(g, (Timestamp(g) + 1) * TAILS + tail);
  }
}
