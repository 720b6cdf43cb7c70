/**
 * Text and integer helpers shared by the four implementations of the progress
 * meters: repeated characters, decimal formatting as printf's "%d" / "%3d" and
 * Rust's "{}" / "{:3}" produce it, and the float-to-integer conversions
 * (truncation toward zero, round-half-up) that the sources write with floats.
 */
module Format {

  /** A Rust or C 32-bit signed integer. */
  type I32 = x: int | -0x8000_0000 <= x < 0x8000_0000

  function Abs(x: int): nat { if x < 0 then -x else x }

  function Min(a: int, b: int): int { if a <= b then a else b }

  /** `n` copies of `c`, as Python `c * n`, Go `strings.Repeat` or a C fill loop. */
  function Repeat(c: char, n: nat): (r: string)
    ensures |r| == n
    ensures forall i :: 0 <= i < |r| ==> r[i] == c
  {
    if n == 0 then [] else [c] + Repeat(c, n - 1)
  }

  /** The backspace character, `\b` in the sources. */
  const BS: char := '\U{0008}'

  /** The escape character that starts an ANSI control sequence. */
  const ESC: char := '\U{001B}'

  function Spaces(n: nat): string { Repeat(' ', n) }

  function Backspaces(n: nat): string { Repeat(BS, n) }

  lemma {:induction false} RepeatAdd(c: char, m: nat, n: nat)
    ensures Repeat(c, m) + Repeat(c, n) == Repeat(c, m + n)
  {
    var r := Repeat(c, m + n);
    assert |Repeat(c, m) + Repeat(c, n)| == |r|;
    forall i | 0 <= i < |r| ensures (Repeat(c, m) + Repeat(c, n))[i] == r[i] {
      if i < m {
        assert (Repeat(c, m) + Repeat(c, n))[i] == Repeat(c, m)[i];
      } else {
        assert (Repeat(c, m) + Repeat(c, n))[i] == Repeat(c, n)[i - m];
      }
    }
  }

  /** Dropping `k` of `n` copies leaves `n - k` copies. */
  lemma RepeatDrop(c: char, n: nat, k: nat)
    requires k <= n
    ensures Repeat(c, n)[k..] == Repeat(c, n - k)
  {
    var a, b := Repeat(c, n)[k..], Repeat(c, n - k);
    assert |a| == |b|;
    forall i | 0 <= i < |a| ensures a[i] == b[i] {
      assert a[i] == Repeat(c, n)[k + i];
    }
  }

  lemma AppendAssoc<T>(a: seq<T>, b: seq<T>, c: seq<T>)
    ensures a + b + c == a + (b + c)
  {
  }

  /** Regrouping a concatenation of four parts, proved once for every caller. */
  lemma AppendAssoc4<T>(a: seq<T>, b: seq<T>, c: seq<T>, d: seq<T>)
    ensures a + b + c + d == a + (b + c + d)
  {
  }

  /** Python's `s * n`: the empty string for `n <= 0`. */
  function RepeatInt(c: char, n: int): (r: string)
    ensures |r| == if n <= 0 then 0 else n
  {
    if n <= 0 then [] else Repeat(c, n)
  }

  // ---------------------------------------------------------------------------
  // Byte lengths

  /** A character of the 7-bit ASCII range, which UTF-8 encodes as one byte. */
  predicate IsAscii(c: char) { (c as int) < 0x80 }

  predicate Ascii(s: string) { forall i :: 0 <= i < |s| ==> IsAscii(s[i]) }

  /** How many bytes UTF-8 takes for `c`. */
  function Utf8Width(c: char): (n: nat)
    ensures 1 <= n <= 4
    ensures n == 1 <==> IsAscii(c)
  {
    if (c as int) < 0x80 then 1
    else if (c as int) < 0x800 then 2
    else if (c as int) < 0x1_0000 then 3
    else 4
  }

  /**
   * The length in bytes of `s` encoded as UTF-8: what Rust's `str::len` and
   * C's `strlen` count, where `|s|` counts characters.
   */
  function Utf8Len(s: string): nat
  {
    if s == [] then 0 else Utf8Width(s[0]) + Utf8Len(s[1..])
  }

  /** Every character takes one to four bytes. */
  lemma {:induction false} Utf8LenBounds(s: string)
    ensures |s| <= Utf8Len(s) <= 4 * |s|
  {
    if s != [] {
      Utf8LenBounds(s[1..]);
    }
  }

  /** Bytes and characters agree exactly for ASCII text. */
  lemma {:induction false} Utf8LenAscii(s: string)
    ensures Utf8Len(s) == |s| <==> Ascii(s)
  {
    if s != [] {
      Utf8LenAscii(s[1..]);
      Utf8LenBounds(s[1..]);
      assert Ascii(s) <==> IsAscii(s[0]) && Ascii(s[1..]) by {
        if IsAscii(s[0]) && Ascii(s[1..]) {
          forall i | 0 <= i < |s| ensures IsAscii(s[i]) {
            if i > 0 { assert s[i] == s[1..][i - 1]; }
          }
        }
        if Ascii(s) {
          forall i | 0 <= i < |s[1..]| ensures IsAscii(s[1..][i]) {
            assert s[1..][i] == s[i + 1];
          }
        }
      }
    }
  }

  /** One accented letter: "café" is four characters but five bytes. */
  lemma Utf8LenExample()
    ensures |"café"| == 4 && Utf8Len("café") == 5
  {
    assert "café"[1..] == "afé";
    assert "afé"[1..] == "fé";
    assert "fé"[1..] == "é";
    assert "é"[1..] == "";
  }

  // ---------------------------------------------------------------------------
  // Decimal formatting

  function DigitChar(d: nat): (c: char)
    requires d < 10
    ensures '0' <= c <= '9' && c as int - '0' as int == d
  {
    "0123456789"[d]
  }

  predicate IsDigit(c: char) { '0' <= c <= '9' }

  predicate AllDigits(s: string) { forall i :: 0 <= i < |s| ==> IsDigit(s[i]) }

  /** The decimal digits of `n`, without leading zeros ("0" for zero). */
  function NatToString(n: nat): (r: string)
    ensures |r| >= 1 && AllDigits(r)
    ensures (|r| == 1) == (n < 10)
    ensures |r| > 1 ==> r[0] != '0'
    decreases n
  {
    if n < 10 then [DigitChar(n)] else NatToString(n / 10) + [DigitChar(n % 10)]
  }

  /** Reads back a string of decimal digits. */
  function ParseNat(s: string): nat
    requires AllDigits(s)
    decreases |s|
  {
    if s == [] then 0 else 10 * ParseNat(s[..|s| - 1]) + (s[|s| - 1] as int - '0' as int)
  }

  lemma {:induction false} ParseNatToString(n: nat)
    ensures ParseNat(NatToString(n)) == n
    decreases n
  {
    var r := NatToString(n);
    if n >= 10 {
      ParseNatToString(n / 10);
      assert r[..|r| - 1] == NatToString(n / 10);
    }
  }

  /** Two numbers with the same decimal string are equal. */
  lemma NatToStringInjective(m: nat, n: nat)
    requires NatToString(m) == NatToString(n)
    ensures m == n
  {
    ParseNatToString(m);
    ParseNatToString(n);
  }

  lemma {:induction false} NatToStringLength(n: nat)
    ensures (|NatToString(n)| <= 3) == (n < 1000)
    ensures n < 100 ==> |NatToString(n)| <= 2
    ensures 100 <= n < 1000 ==> |NatToString(n)| == 3
  {
    if n >= 10 {
      NatToStringLength(n / 10);
    }
  }

  /** printf "%d" / Rust "{}" of an integer. */
  function IntToString(n: int): (r: string)
    ensures |r| >= 1
    ensures (r[0] == '-') == (n < 0)
  {
    if n < 0 then "-" + NatToString(-n) else NatToString(n)
  }

  /** Right-justifies `s` in a field of `w` characters. */
  function PadLeft(s: string, w: nat): (r: string)
    ensures |r| == if |s| < w then w else |s|
  {
    if |s| < w then Spaces(w - |s|) + s else s
  }

  /** The padded text ends with `s` and is blank before it. */
  lemma PadLeftCells(s: string, w: nat)
    ensures var r := PadLeft(s, w);
      r[|r| - |s|..] == s && forall i :: 0 <= i < |r| - |s| ==> r[i] == ' '
  {
    if |s| < w {
      var r := Spaces(w - |s|) + s;
      assert r[|r| - |s|..] == s;
    }
  }

  /** printf "%3d" / Rust "{:3}". */
  function Width3(n: int): string { PadLeft(IntToString(n), 3) }

  lemma Width3Length(n: int)
    requires -99 <= n <= 999
    ensures |Width3(n)| == 3
  {
    if n < 0 {
      NatToStringLength(-n);
    } else {
      NatToStringLength(n);
    }
  }

  /**
   * "%3d" of 100 needs no padding; with the percent sign it is the text of a
   * full percentage meter.
   */
  lemma Width3Of100(n: int)
    requires n == 100
    ensures Width3(n) == "100"
    ensures Width3(n) + "%" == "100%"
  {
    assert NatToString(1) == "1";
    assert NatToString(10) == NatToString(1) + [DigitChar(0)] == "10";
    assert NatToString(100) == NatToString(10) + [DigitChar(0)] == "100";
    assert IntToString(100) == "100";
    var w := Width3(n);
    assert w[0] == '1' && w[1] == '0' && w[2] == '0' && |w| == 3;
    var t := w + "%";
    assert t[0] == '1' && t[1] == '0' && t[2] == '0' && t[3] == '%' && |t| == 4;
  }

  /** The text of a full percentage meter followed by its separating space. */
  lemma FullPercentWord()
    ensures "100%" + " " == "100% "
  {
    var u := "100%" + " ";
    assert u[0] == '1' && u[1] == '0' && u[2] == '0' && u[3] == '%' && u[4] == ' ' && |u| == 5;
  }

  /** Below 100, "%3d" of a non-negative number starts with a padding space. */
  lemma Width3Below100(n: int)
    requires 0 <= n < 100
    ensures Width3(n)[0] == ' '
  {
    NatToStringLength(n);
    PadLeftCells(IntToString(n), 3);
  }

  /** Drops leading spaces: undoes the padding of `PadLeft`. */
  function TrimLeft(s: string): (r: string)
    ensures |r| <= |s|
  {
    if s != [] && s[0] == ' ' then TrimLeft(s[1..]) else s
  }

  lemma {:induction false} TrimLeftSpaces(k: nat, s: string)
    requires s == [] || s[0] != ' '
    ensures TrimLeft(Spaces(k) + s) == s
  {
    if k > 0 {
      assert (Spaces(k) + s)[1..] == Spaces(k - 1) + s;
      TrimLeftSpaces(k - 1, s);
    } else {
      assert Spaces(k) + s == s;
    }
  }

  lemma TrimLeftPadLeft(s: string, w: nat)
    requires s == [] || s[0] != ' '
    ensures TrimLeft(PadLeft(s, w)) == s
  {
    if |s| < w {
      TrimLeftSpaces(w - |s|, s);
    } else {
      TrimLeftSpaces(0, s);
    }
  }

  lemma IntToStringInjective(m: int, n: int)
    requires IntToString(m) == IntToString(n)
    ensures m == n
  {
    if m < 0 && n < 0 {
      assert IntToString(m)[1..] == NatToString(-m);
      assert IntToString(n)[1..] == NatToString(-n);
      NatToStringInjective(-m, -n);
    } else if m >= 0 && n >= 0 {
      NatToStringInjective(m, n);
    }
  }

  /** Different numbers print differently under "%3d". */
  lemma Width3Injective(m: int, n: int)
    requires Width3(m) == Width3(n)
    ensures m == n
  {
    var a, b := IntToString(m), IntToString(n);
    assert a[0] != ' ' && b[0] != ' ' by {
      if m >= 0 { assert IsDigit(NatToString(m)[0]); }
      if n >= 0 { assert IsDigit(NatToString(n)[0]); }
    }
    TrimLeftPadLeft(a, 3);
    TrimLeftPadLeft(b, 3);
    IntToStringInjective(m, n);
  }

  // ---------------------------------------------------------------------------
  // Float-to-integer conversions, in exact arithmetic

  /**
   * The C, Go, Rust and Python conversion of the rational `n / d` to an
   * integer: truncation toward zero.
   */
  lemma DivBounds(a: int, b: int)
    requires b > 0
    ensures (a / b) * b <= a < (a / b + 1) * b
  {
    var q, r := a / b, a % b;
    assert a == q * b + r && 0 <= r < b;
    assert (q + 1) * b == q * b + b;
  }

  lemma DivUnique(n: int, d: int, q: int)
    requires d > 0 && q * d <= n < (q + 1) * d
    ensures n / d == q
  {
    DivBounds(n, d);
    var r := n / d;
    if r < q {
      MulMono(r + 1, q, d);
    } else if q < r {
      MulMono(q + 1, r, d);
    }
  }

  lemma MulMono(x: int, y: int, d: int)
    requires x <= y && d > 0
    ensures x * d <= y * d
  {
  }

  function TruncDiv(n: int, d: int): int
    requires d != 0
  {
    var a := Abs(n) / Abs(d);
    if (n < 0) == (d < 0) then a else -a
  }

  /** The quotient's magnitude is that of `n / d` rounded down, its sign that of `n / d`. */
  lemma TruncDivBounds(n: int, d: int)
    requires d != 0
    ensures var q := TruncDiv(n, d);
      Abs(q) * Abs(d) <= Abs(n) < (Abs(q) + 1) * Abs(d)
      && (q != 0 ==> ((q < 0) <==> ((n < 0) != (d < 0))))
  {
    var a := Abs(n) / Abs(d);
    DivBounds(Abs(n), Abs(d));
    assert Abs(TruncDiv(n, d)) == a;
  }

  lemma TruncDivNonNegative(n: int, d: int)
    requires n >= 0 && d > 0
    ensures TruncDiv(n, d) == n / d
  {
  }

  lemma DivMonotonic(m: int, n: int, d: int)
    requires m <= n && d > 0
    ensures m / d <= n / d
  {
    DivBounds(m, d);
    DivBounds(n, d);
    var qm, qn := m / d, n / d;
    assert qm * d < (qn + 1) * d;
    MulCancel(qm, qn + 1, d);
  }

  lemma MulCancel(x: int, y: int, d: int)
    requires d > 0 && x * d < y * d
    ensures x < y
  {
  }

  lemma TruncDivMonotonic(m: int, n: int, d: int)
    requires m <= n && d > 0
    ensures TruncDiv(m, d) <= TruncDiv(n, d)
  {
    var qm, qn := TruncDiv(m, d), TruncDiv(n, d);
    if 0 <= m {
      DivMonotonic(m, n, d);
      assert qm == m / d && qn == n / d;
    } else if n < 0 {
      DivMonotonic(-n, -m, d);
      assert qm == -((-m) / d) && qn == -((-n) / d);
    } else {
      DivMonotonic(0, -m, d);
      DivMonotonic(0, n, d);
      assert qm == -((-m) / d) && qn == n / d;
    }
    assert qm <= qn;
  }

  /**
   * `(int)(x + 0.5)` for the non-negative rational `x = num / den`: the
   * integer nearest to `x`, halves rounded up.
   */
  function RoundHalfUp(num: nat, den: int): (r: nat)
    requires den > 0
    ensures 2 * r * den - den <= 2 * num < 2 * r * den + den
  {
    (2 * num + den) / (2 * den)
  }

  lemma RoundHalfUpMonotonic(m: nat, n: nat, den: int)
    requires m <= n && den > 0
    ensures RoundHalfUp(m, den) <= RoundHalfUp(n, den)
  {
    DivMonotonic(2 * m + den, 2 * n + den, 2 * den);
  }

  /** Rust's saturating float-to-`i32` cast. */
  function Saturate32(x: int): (r: I32)
    ensures -0x8000_0000 <= x < 0x8000_0000 ==> r == x
    ensures x < -0x8000_0000 ==> r == -0x8000_0000
    ensures x >= 0x8000_0000 ==> r == 0x7fff_ffff
  {
    if x < -0x8000_0000 then -0x8000_0000 else if x >= 0x8000_0000 then 0x7fff_ffff else x
  }
}
