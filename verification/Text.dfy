/** UTF-8 and white space, as Rust's `str` has them. */
module Text {
  import opened ByteStrings

  function Utf8Char(c: char): Bytes {
    var n := c as int;
    if n < 0x80 then [n]
    else if n < 0x800 then [0xC0 + n / 0x40, 0x80 + n % 0x40]
    else if n < 0x1_0000 then [0xE0 + n / 0x1000, 0x80 + n / 0x40 % 0x40, 0x80 + n % 0x40]
    else [0xF0 + n / 0x4_0000, 0x80 + n / 0x1000 % 0x40, 0x80 + n / 0x40 % 0x40, 0x80 + n % 0x40]
  }

  function Utf8(s: string): Bytes {
    if s == "" then [] else Utf8Char(s[0]) + Utf8(s[1..])
  }

  /** The bytes of a character are those of RFC 3629, section 3: seven bits in one byte, or a leading byte
      that tells how many follow, each with six bits. */
  lemma Utf8Layout(c: char)
    ensures var n: int, b := c as int, Utf8Char(c);
            && |b| == (if n <= 0x7F then 1 else if n <= 0x7FF then 2 else if n <= 0xFFFF then 3 else 4)
            && (|b| == 1 ==> b[0] == n)
            && (|b| > 1 ==> b[0] >= (if |b| == 2 then 0xC0 else if |b| == 3 then 0xE0 else 0xF0))
            && (forall i | 1 <= i < |b| :: 0x80 <= b[i] <= 0xBF)
            && (|b| == 2 ==> n == Sixes(b[0] - 0xC0, b[1..]))
            && (|b| == 3 ==> n == Sixes(b[0] - 0xE0, b[1..]))
            && (|b| == 4 ==> n == Sixes(b[0] - 0xF0, b[1..]))
  {
    hide Sixes;
    var n, b := c as int, Utf8Char(c);
    LowSixes(n);
    if 0x80 <= n < 0x800 {
      assert b[1..] == [0x80 + n % 0x40];
    } else if 0x800 <= n < 0x1_0000 {
      assert b[1..] == [0x80 + n / 0x40 % 0x40, 0x80 + n % 0x40];
    } else if 0x1_0000 <= n {
      assert b[1..] == [0x80 + n / 0x1000 % 0x40, 0x80 + n / 0x40 % 0x40, 0x80 + n % 0x40];
    }
  }

  lemma LowSixes(n: nat)
    ensures n == Sixes(n / 0x40, [0x80 + n % 0x40])
    ensures n == Sixes(n / 0x1000, [0x80 + n / 0x40 % 0x40, 0x80 + n % 0x40])
    ensures n == Sixes(n / 0x4_0000, [0x80 + n / 0x1000 % 0x40, 0x80 + n / 0x40 % 0x40, 0x80 + n % 0x40])
  {
    var a, b := n / 0x40, n / 0x1000;
    assert b == a / 0x40 && n / 0x4_0000 == b / 0x40;
    SixesOfThree(a, [0x80 + n % 0x40]);
    SixesOfThree(b, [0x80 + a % 0x40, 0x80 + n % 0x40]);
    SixesOfThree(n / 0x4_0000, [0x80 + b % 0x40, 0x80 + a % 0x40, 0x80 + n % 0x40]);
    hide Sixes;
  }

  lemma SixesOfThree(high: int, r: Bytes)
    ensures |r| == 1 ==> Sixes(high, r) == 0x40 * high + (r[0] as int - 0x80)
    ensures |r| == 2 ==> Sixes(high, r) == 0x40 * (0x40 * high + (r[0] as int - 0x80)) + (r[1] as int - 0x80)
    ensures |r| == 3 ==>
              Sixes(high, r) ==
              0x40 * (0x40 * (0x40 * high + (r[0] as int - 0x80)) + (r[1] as int - 0x80)) + (r[2] as int - 0x80)
  {
    if 0 < |r| <= 3 {
      var h1 := 0x40 * high + (r[0] as int - 0x80);
      assert Sixes(high, r) == Sixes(h1, r[1..]);
      if |r| > 1 {
        var h2 := 0x40 * h1 + (r[1] as int - 0x80);
        assert Sixes(h1, r[1..]) == Sixes(h2, r[1..][1..]) && r[1..][1..] == r[2..];
        if |r| > 2 {
          assert Sixes(h2, r[2..]) == Sixes(0x40 * h2 + (r[2] as int - 0x80), r[2..][1..]);
        }
      }
    }
  }

  /** The number that starts with `high` and goes on with the low six bits of each byte. */
  function Sixes(high: int, rest: Bytes): int
    decreases |rest|
  {
    if rest == [] then high else Sixes(0x40 * high + (rest[0] as int - 0x80), rest[1..])
  }

  lemma {:induction false} Utf8Concat(s: string, u: string)
    ensures Utf8(s + u) == Utf8(s) + Utf8(u)
  {
    if s == "" {
      assert s + u == u;
    } else {
      assert (s + u)[1..] == s[1..] + u;
      Utf8Concat(s[1..], u);
    }
  }

  /** Unicode White_Space. */
  predicate IsWhite(c: char) {
    var n := c as int;
    || 9 <= n <= 13 || n == 0x20 || n == 0x85 || n == 0xA0 || n == 0x1680 || 0x2000 <= n <= 0x200A
    || n == 0x2028 || n == 0x2029 || n == 0x202F || n == 0x205F || n == 0x3000
  }

  /** The twenty-five characters of White_Space. */
  lemma WhiteSpace(c: char)
    ensures IsWhite(c) <==>
            c as int in {0x09, 0x0A, 0x0B, 0x0C, 0x0D, 0x20, 0x85, 0xA0, 0x1680, 0x2000, 0x2001, 0x2002, 0x2003, 0x2004,
                         0x2005, 0x2006, 0x2007, 0x2008, 0x2009, 0x200A, 0x2028, 0x2029, 0x202F, 0x205F, 0x3000}
  {
  }

  function TrimStart(s: string): string {
    if s != "" && IsWhite(s[0]) then TrimStart(s[1..]) else s
  }

  function TrimEnd(s: string): string {
    if s != "" && IsWhite(s[|s| - 1]) then TrimEnd(s[..|s| - 1]) else s
  }
}
