/**
 * A reference model of a terminal without ANSI support (TERM=dumb): the
 * lines already ended by a newline, the cells of the current line and the
 * cursor column. A backspace moves the cursor one column left (never past
 * column 0), a carriage return moves it to column 0, a newline ends the
 * line, and every other character overwrites the cell under the cursor (or
 * extends the line) and advances the cursor.
 *
 * The progress meters are specified by the text they write; this model is
 * what gives that text a meaning: the lemmas of the four implementations
 * state what is on the screen after an operation.
 */
module Terminal {
  import opened Format

  datatype Screen = Screen(lines: seq<string>, line: string, col: nat)

  predicate Wf(s: Screen) { s.col <= |s.line| }

  predicate IsControl(c: char) { c == BS || c == '\r' || c == '\n' }

  /** Text that only occupies cells: no cursor movement other than advancing. */
  predicate Plain(w: string) { forall i :: 0 <= i < |w| ==> !IsControl(w[i]) }

  /** A screen at the end of its current line, as after printing that line. */
  function AtEnd(lines: seq<string>, line: string): (s: Screen)
    ensures Wf(s)
  {
    Screen(lines, line, |line|)
  }

  function Put(s: Screen, c: char): (r: Screen)
    requires Wf(s)
    ensures Wf(r)
  {
    if c == '\n' then Screen(s.lines + [s.line], [], 0)
    else if c == '\r' then s.(col := 0)
    else if c == BS then s.(col := if s.col == 0 then 0 else s.col - 1)
    else if s.col < |s.line| then s.(line := s.line[s.col := c], col := s.col + 1)
    else s.(line := s.line + [c], col := s.col + 1)
  }

  /** The screen after writing `out`, one character at a time. */
  function Run(s: Screen, out: string): (r: Screen)
    requires Wf(s)
    ensures Wf(r)
    decreases |out|
  {
    if out == [] then s else Run(Put(s, out[0]), out[1..])
  }

  lemma {:induction false} RunAppend(s: Screen, a: string, b: string)
    requires Wf(s)
    ensures Run(s, a + b) == Run(Run(s, a), b)
    decreases |a|
  {
    if a == [] {
      assert a + b == b;
    } else {
      assert (a + b)[0] == a[0];
      assert (a + b)[1..] == a[1..] + b;
      RunAppend(Put(s, a[0]), a[1..], b);
    }
  }

  lemma RunChar(s: Screen, c: char)
    requires Wf(s)
    ensures Run(s, [c]) == Put(s, c)
  {
    assert [c][1..] == [];
  }

  /** `k` backspaces move the cursor `k` columns left and change no cell. */
  lemma {:induction false} RunBackspaces(s: Screen, k: nat)
    requires Wf(s) && k <= s.col
    ensures Run(s, Backspaces(k)) == s.(col := s.col - k)
    decreases k
  {
    if k > 0 {
      assert Backspaces(k) == [BS] + Backspaces(k - 1);
      RunAppend(s, [BS], Backspaces(k - 1));
      RunChar(s, BS);
      RunBackspaces(s.(col := s.col - 1), k - 1);
    } else {
      assert Backspaces(k) == [];
    }
  }

  /** `line` with `w` written over it from column `col`. */
  function Overlay(line: string, col: nat, w: string): (r: string)
    requires col <= |line|
    ensures |r| == if col + |w| < |line| then |line| else col + |w|
    ensures r[..col] == line[..col] && r[col..col + |w|] == w
    ensures col + |w| < |line| ==> r[col + |w|..] == line[col + |w|..]
  {
    line[..col] + w + (if col + |w| < |line| then line[col + |w|..] else [])
  }

  lemma OverlayStep(line: string, col: nat, c: char, w: string)
    requires col <= |line|
    ensures Overlay(Overlay(line, col, [c]), col + 1, w) == Overlay(line, col, [c] + w)
  {
  }

  /** A character that is not a control character overwrites one cell. */
  lemma PutPlain(s: Screen, c: char)
    requires Wf(s) && !IsControl(c)
    ensures Put(s, c) == Screen(s.lines, Overlay(s.line, s.col, [c]), s.col + 1)
  {
  }

  lemma RunCons(s: Screen, w: string)
    requires Wf(s) && w != []
    ensures Run(s, w) == Run(Put(s, w[0]), w[1..])
  {
  }

  /** Plain text overwrites the cells under the cursor. */
  lemma {:induction false} RunPlain(s: Screen, w: string)
    requires Wf(s) && Plain(w)
    ensures Run(s, w) == Screen(s.lines, Overlay(s.line, s.col, w), s.col + |w|)
    decreases |w|
  {
    if w == [] {
      assert Overlay(s.line, s.col, w) == s.line;
    } else {
      var c, rest := w[0], w[1..];
      assert !IsControl(c) && Plain(rest) by {
        forall i | 0 <= i < |rest| ensures !IsControl(rest[i]) {
          assert rest[i] == w[i + 1];
        }
      }
      RunCons(s, w);
      PutPlain(s, c);
      RunPlain(Put(s, c), rest);
      OverlayStep(s.line, s.col, c, rest);
      assert [c] + rest == w;
    }
  }

  /** Backing up over the last `|b|` cells of the line leaves the cells alone. */
  lemma BackOver(lines: seq<string>, a: string, b: string)
    ensures Run(AtEnd(lines, a + b), Backspaces(|b|)) == Screen(lines, a + b, |a|)
  {
    RunBackspaces(AtEnd(lines, a + b), |b|);
  }

  /** Writing plain text `c` at the start of `b`: the overwritten part of `b` is replaced. */
  lemma WriteOver(lines: seq<string>, a: string, b: string, c: string)
    requires Plain(c)
    ensures Run(Screen(lines, a + b, |a|), c)
         == Screen(lines, a + c + (if |c| < |b| then b[|c|..] else []), |a| + |c|)
  {
    RunPlain(Screen(lines, a + b, |a|), c);
    var r := Overlay(a + b, |a|, c);
    assert r == a + c + (if |c| < |b| then b[|c|..] else []) by {
      assert (a + b)[..|a|] == a;
      if |a| + |c| < |a + b| {
        assert (a + b)[|a| + |c|..] == b[|c|..];
      }
    }
  }

  /**
   * Backing up over the last `|b|` cells of the line and writing `c` there:
   * the render-in-place step every meter performs.
   */
  lemma Redraw(lines: seq<string>, a: string, b: string, c: string)
    requires Plain(c)
    ensures Run(AtEnd(lines, a + b), Backspaces(|b|) + c)
         == Screen(lines, a + c + (if |c| < |b| then b[|c|..] else []), |a| + |c|)
  {
    RunAppend(AtEnd(lines, a + b), Backspaces(|b|), c);
    BackOver(lines, a, b);
    WriteOver(lines, a, b, c);
  }

  /** Redrawing with text of the same width leaves exactly the new text, cursor at its end. */
  lemma RedrawSameWidth(lines: seq<string>, a: string, b: string, c: string)
    requires Plain(c) && |c| == |b|
    ensures Run(AtEnd(lines, a + b), Backspaces(|b|) + c) == AtEnd(lines, a + c)
  {
    Redraw(lines, a, b, c);
  }

  lemma RunCarriageReturn(s: Screen)
    requires Wf(s)
    ensures Run(s, "\r") == s.(col := 0)
  {
    RunChar(s, '\r');
  }

  lemma RunNewline(s: Screen)
    requires Wf(s)
    ensures Run(s, "\n") == Screen(s.lines + [s.line], [], 0)
  {
    RunChar(s, '\n');
  }

  /** All cells of `w` are blank. */
  predicate Blank(w: string) { forall i :: 0 <= i < |w| ==> w[i] == ' ' }

  lemma SpacesArePlain(n: nat)
    ensures Plain(Spaces(n)) && Blank(Spaces(n))
  {
  }

  lemma PlainAppend(a: string, b: string)
    requires Plain(a) && Plain(b)
    ensures Plain(a + b)
  {
    forall i | 0 <= i < |a + b| ensures !IsControl((a + b)[i]) {
      if i < |a| { assert (a + b)[i] == a[i]; } else { assert (a + b)[i] == b[i - |a|]; }
    }
  }

  /**
   * A carriage return, at least as many spaces as the line is long, and a
   * carriage return: the fallback way to wipe a line.
   */
  lemma WipeLine(s: Screen, n: nat)
    requires Wf(s) && |s.line| <= n
    ensures Run(s, "\r" + Spaces(n) + "\r") == Screen(s.lines, Spaces(n), 0)
  {
    RunAppend(s, "\r" + Spaces(n), "\r");
    RunAppend(s, "\r", Spaces(n));
    RunCarriageReturn(s);
    SpacesArePlain(n);
    RunPlain(s.(col := 0), Spaces(n));
    assert Overlay(s.line, 0, Spaces(n)) == Spaces(n);
    RunCarriageReturn(Screen(s.lines, Spaces(n), n));
  }

  /** Writing from column 0 replaces the first `|w|` cells. */
  lemma OverlayAtStart(line: string, w: string)
    ensures Overlay(line, 0, w) == w + (if |w| < |line| then line[|w|..] else [])
  {
    assert line[..0] + w == w;
  }

  /** Plain text written at column 0 of a blank line: what stays of the blanks is past its end. */
  lemma WriteOnAnyBlank(lines: seq<string>, n: nat, w: string)
    requires Plain(w)
    ensures Run(Screen(lines, Spaces(n), 0), w)
         == Screen(lines, w + (if |w| < n then Spaces(n - |w|) else []), |w|)
  {
    RunPlain(Screen(lines, Spaces(n), 0), w);
    OverlayAtStart(Spaces(n), w);
    if |w| < n {
      RepeatDrop(' ', n, |w|);
    }
  }

  /** Plain text written at column 0 of a blank line of at least its width. */
  lemma WriteOnBlank(lines: seq<string>, n: nat, w: string)
    requires Plain(w) && |w| <= n
    ensures Run(Screen(lines, Spaces(n), 0), w) == Screen(lines, w + Spaces(n - |w|), |w|)
  {
    WriteOnAnyBlank(lines, n, w);
    if |w| == n {
      assert w + Spaces(0) == w;
    }
  }

  /**
   * Backspacing over the `|g|` cells before the cursor, blanking them and
   * backspacing again: the cells become blanks, the cursor stands before them
   * and the rest of the line is untouched.
   */
  lemma Blot(lines: seq<string>, a: string, g: string, rest: string)
    ensures Run(Screen(lines, a + g + rest, |a| + |g|), Backspaces(|g|) + Spaces(|g|) + Backspaces(|g|))
         == Screen(lines, a + Spaces(|g|) + rest, |a|)
  {
    var k := |g|;
    var s1 := Screen(lines, a + g + rest, |a| + k);
    var s2 := Screen(lines, a + (g + rest), |a|);
    var s3 := Screen(lines, a + Spaces(k) + rest, |a| + k);
    assert Run(s1, Backspaces(k)) == s2 by {
      RunBackspaces(s1, k);
      assert a + g + rest == a + (g + rest);
    }
    assert Run(s2, Spaces(k)) == s3 by {
      SpacesArePlain(k);
      WriteOver(lines, a, g + rest, Spaces(k));
      if k < |g + rest| {
        assert (g + rest)[k..] == rest;
      } else {
        assert rest == [];
      }
    }
    assert Run(s3, Backspaces(k)) == Screen(lines, a + Spaces(k) + rest, |a|) by {
      RunBackspaces(s3, k);
    }
    RunAppend(s1, Backspaces(k) + Spaces(k), Backspaces(k));
    RunAppend(s1, Backspaces(k), Spaces(k));
  }

  /**
   * Backing up over the `|b|` cells before the cursor and writing `c` of the
   * same width there: `c` replaces `b`, the rest of the line is untouched.
   */
  lemma BackWriteSame(lines: seq<string>, a: string, b: string, rest: string, c: string)
    requires Plain(c) && |c| == |b|
    ensures Run(Screen(lines, a + b + rest, |a| + |b|), Backspaces(|b|) + c)
         == Screen(lines, a + c + rest, |a| + |c|)
  {
    var s1 := Screen(lines, a + b + rest, |a| + |b|);
    RunAppend(s1, Backspaces(|b|), c);
    RunBackspaces(s1, |b|);
    assert a + b + rest == a + (b + rest);
    WriteOver(lines, a, b + rest, c);
    if |c| < |b + rest| {
      assert (b + rest)[|c|..] == rest;
    } else {
      assert rest == [];
    }
  }

  /** Plain `w` and a newline, written over `|w| + m` blanks: the line ends as `w` and `m` blanks. */
  lemma WriteLineOverBlanks(lines: seq<string>, a: string, w: string, m: nat)
    requires Plain(w)
    ensures Run(Screen(lines, a + Spaces(|w| + m), |a|), w + "\n")
         == Screen(lines + [a + w + Spaces(m)], [], 0)
  {
    var blanks := Spaces(|w| + m);
    RunAppend(Screen(lines, a + blanks, |a|), w, "\n");
    WriteOver(lines, a, blanks, w);
    if |w| < |blanks| {
      RepeatDrop(' ', |w| + m, |w|);
    } else {
      assert Spaces(m) == [];
    }
    RunNewline(Screen(lines, a + w + Spaces(m), |a| + |w|));
  }

  lemma PlainDigits(s: string)
    requires AllDigits(s)
    ensures Plain(s)
  {
  }

  lemma PlainIntToString(n: int)
    ensures Plain(IntToString(n))
  {
    var r := IntToString(n);
    if n < 0 {
      forall i | 0 <= i < |r| ensures !IsControl(r[i]) {
        if i > 0 { assert r[i] == NatToString(-n)[i - 1]; }
      }
    }
  }

  lemma PlainWidth3(n: int)
    ensures Plain(Width3(n))
  {
    var s := IntToString(n);
    PlainIntToString(n);
    if |s| < 3 {
      SpacesArePlain(3 - |s|);
      PlainAppend(Spaces(3 - |s|), s);
    }
  }

  /** The text of a full percentage meter, with and without its separating space, is plain. */
  lemma PlainFullPercent()
    ensures Plain("100%") && Plain("100% ")
  {
    var t := "100% ";
    forall i | 0 <= i < |t| ensures !IsControl(t[i]) {
      assert t[i] in {'1', '0', '%', ' '};
    }
    assert "100%" == t[..4];
  }
}
