/**
 * The Rust implementation (src/lib.rs): a shared `ProgressMeter` state and
 * the `ProgressPercent` and `ProgressSpinner` indicators built on it. The
 * clock is the `now` parameter (milliseconds) and standard output is the
 * meter's `out`, which every operation only appends to.
 */
module RustProgress {
  import opened Format
  import opened Terminal

  const FPS_RATE: nat := 4

  /** `1.0 / FPS_RATE` seconds, in milliseconds. */
  const REFRESH_MS: nat := 1000 / FPS_RATE

  const SPIN: string := "|/-\\"

  /** How both labels are printed: followed by one space, or not at all when empty. */
  function Word(s: string): (r: string)
    ensures |r| == if s == [] then 0 else |s| + 1
  {
    if s == [] then [] else s + " "
  }

  // ---------------------------------------------------------------------------
  // ProgressMeter

  /** What `back_rlabel` prints; `rlabel.len()` counts the label's UTF-8 bytes. */
  function BackRlabelText(rlabel: string, haveVt100: bool): string
  {
    if rlabel == [] then []
    else if haveVt100 then [ESC] + "[" + NatToString(Utf8Len(rlabel) + 1) + "D"
    else Backspaces(Utf8Len(rlabel) + 1)
  }

  /** What `erase_rlabel` prints. */
  function EraseRlabelText(rlabel: string, haveVt100: bool): string
  {
    if rlabel == [] then []
    else if haveVt100 then BackRlabelText(rlabel, haveVt100) + [ESC] + "[K"
    else BackRlabelText(rlabel, haveVt100) + Spaces(Utf8Len(rlabel) + 1) + BackRlabelText(rlabel, haveVt100)
  }

  /** The test in `need_update`: a quarter second has passed since `timestamp`. */
  predicate RefreshDue(now: int, timestamp: int) { now - timestamp >= REFRESH_MS }

  class ProgressMeter {
    var labelText: string
    var rlabel: string
    var value: I32
    var maxValue: I32
    var timestamp: int
    var haveVt100: bool
    /** Everything printed so far. */
    var out: string

    constructor (now: int)
      ensures labelText == [] && rlabel == [] && value == 0 && maxValue == 0
      ensures timestamp == now && !haveVt100 && out == []
    {
      labelText, rlabel := [], [];
      value, maxValue := 0, 0;
      timestamp := now;
      haveVt100 := false;
      out := [];
    }

    method SetLabel(labelText: string)
      modifies this`labelText
      ensures this.labelText == labelText
    {
      this.labelText := labelText;
    }

    method SetRlabel(rlabel: string)
      modifies this`rlabel
      ensures this.rlabel == rlabel
    {
      this.rlabel := rlabel;
    }

    method BackRlabel()
      modifies this`out
      ensures out == old(out) + BackRlabelText(rlabel, haveVt100)
    {
      if rlabel == [] {
        return;
      }
      var length := Utf8Len(rlabel) + 1;
      if haveVt100 {
        out := out + [ESC] + "[" + NatToString(length) + "D";
      } else {
        out := out + Backspaces(length);
      }
    }

    method EraseRlabel()
      modifies this`out
      ensures out == old(out) + EraseRlabelText(rlabel, haveVt100)
    {
      if rlabel == [] {
        return;
      }
      BackRlabel();
      if haveVt100 {
        out := out + [ESC] + "[K";
      } else {
        var length := Utf8Len(rlabel) + 1;
        out := out + Spaces(length);
        BackRlabel();
      }
    }

    method NeedUpdate(now: int) returns (due: bool)
      modifies this`timestamp
      ensures due <==> RefreshDue(now, old(timestamp))
      ensures timestamp == if due then now else old(timestamp)
    {
      var dt := now - timestamp;
      if dt >= REFRESH_MS {
        timestamp := now;
        due := true;
      } else {
        due := false;
      }
    }
  }

  /**
   * In the fallback path `back_rlabel` moves back over exactly the printed
   * trailing label when that label is ASCII, and further otherwise.
   */
  lemma BackRlabelFallback(rlabel: string)
    ensures Ascii(rlabel) ==> BackRlabelText(rlabel, false) == Backspaces(|Word(rlabel)|)
    ensures !Ascii(rlabel) ==> |BackRlabelText(rlabel, false)| > |Word(rlabel)|
  {
    Utf8LenAscii(rlabel);
    Utf8LenBounds(rlabel);
  }

  /** "café" is printed in 5 cells ("café "), but `back_rlabel` prints 6 backspaces. */
  lemma BackRlabelCountsBytes()
    ensures BackRlabelText("café", false) == Backspaces(6) && |Word("café")| == 5
  {
    Utf8LenExample();
  }

  /** In the ANSI path `back_rlabel` is ESC [ n D where n reads back as `len(rlabel) + 1`. */
  lemma BackRlabelAnsi(rlabel: string)
    requires rlabel != []
    ensures var t := BackRlabelText(rlabel, true);
      t[..2] == [ESC, '['] && t[|t| - 1] == 'D'
      && AllDigits(t[2..|t| - 1]) && ParseNat(t[2..|t| - 1]) == Utf8Len(rlabel) + 1
  {
    var t := BackRlabelText(rlabel, true);
    assert t[2..|t| - 1] == NatToString(Utf8Len(rlabel) + 1);
    ParseNatToString(Utf8Len(rlabel) + 1);
  }

  /** Both paths of `back_rlabel` print nothing when there is no trailing label. */
  lemma BackRlabelEmpty(haveVt100: bool)
    ensures BackRlabelText([], haveVt100) == [] && EraseRlabelText([], haveVt100) == []
  {
  }

  /**
   * On a dumb terminal `erase_rlabel` blanks the printed trailing label and
   * leaves the cursor where that label began.
   */
  lemma EraseRlabelBlanks(lines: seq<string>, a: string, rlabel: string)
    requires Ascii(rlabel)
    ensures Run(AtEnd(lines, a + Word(rlabel)), EraseRlabelText(rlabel, false))
         == Screen(lines, a + Spaces(|Word(rlabel)|), |a|)
  {
    var w := Word(rlabel);
    Utf8LenAscii(rlabel);
    if rlabel != [] {
      assert EraseRlabelText(rlabel, false) == Backspaces(|w|) + Spaces(|w|) + Backspaces(|w|);
      Blot(lines, a, w, []);
      assert a + w + [] == a + w && a + Spaces(|w|) + [] == a + Spaces(|w|);
    } else {
      assert a + w == a + Spaces(0);
    }
  }

  // ---------------------------------------------------------------------------
  // ProgressPercent

  /** `calc_percentage`: the float expression evaluated in exact arithmetic. */
  function CalcPercentage(value: I32, maxValue: I32): (p: int)
    ensures p <= 100
    ensures maxValue == 0 ==> p == 0
  {
    var percent :=
      if maxValue == 0 then 0
      else Saturate32(TruncDiv(200 * value + maxValue, 2 * maxValue));
    if percent > 100 then 100 else percent
  }

  /** The percentage field, "{:3}% ". */
  function PercentField(p: int): string { Width3(p) + "% " }

  /** The `Display` text of a percentage meter. */
  function PercentLine(labelText: string, rlabel: string, p: int): string
  {
    Word(labelText) + PercentField(p) + Word(rlabel)
  }

  /** What `update_display` prints. */
  function PercentRedrawText(rlabel: string, haveVt100: bool, p: int): string
  {
    BackRlabelText(rlabel, haveVt100) + (Backspaces(5) + PercentField(p)) + Word(rlabel)
  }

  /** The width the fallback `hide` blanks. */
  function PercentHideWidth(labelText: string, rlabel: string): nat
  {
    5 + Utf8Len(labelText) + 1 + Utf8Len(rlabel) + 1
  }

  /** What `hide` prints. */
  function PercentHideText(labelText: string, rlabel: string, haveVt100: bool): string
  {
    if haveVt100 then "\r" + [ESC] + "[K" else "\r" + Spaces(PercentHideWidth(labelText, rlabel)) + "\r"
  }

  class ProgressPercent {
    const meter: ProgressMeter

    constructor (now: int)
      ensures fresh(meter)
      ensures meter.labelText == [] && meter.rlabel == [] && meter.value == 0 && meter.maxValue == 0
      ensures meter.timestamp == now && !meter.haveVt100 && meter.out == []
    {
      meter := new ProgressMeter(now);
    }

    function Percentage(): int
      reads meter`value, meter`maxValue
    {
      CalcPercentage(meter.value, meter.maxValue)
    }

    function Display(): string
      reads meter`labelText, meter`rlabel, meter`value, meter`maxValue
    {
      PercentLine(meter.labelText, meter.rlabel, Percentage())
    }

    method GetValue() returns (v: I32)
      ensures v == meter.value
    {
      return meter.value;
    }

    method GetMaxValue() returns (v: I32)
      ensures v == meter.maxValue
    {
      return meter.maxValue;
    }

    method SetLabel(labelText: string)
      modifies meter`labelText
      ensures meter.labelText == labelText
    {
      meter.SetLabel(labelText);
    }

    method SetRlabel(rlabel: string)
      modifies meter`rlabel
      ensures meter.rlabel == rlabel
    {
      meter.SetRlabel(rlabel);
    }

    method SetValue(value: I32)
      modifies meter`value
      ensures meter.value == value
    {
      meter.value := value;
    }

    method SetMaxValue(value: I32)
      modifies meter`maxValue
      ensures meter.maxValue == value
    {
      meter.maxValue := value;
    }

    method Show()
      modifies meter`out
      ensures meter.out == old(meter.out) + Display()
    {
      meter.out := meter.out + Display();
    }

    method Hide()
      modifies meter`out
      ensures meter.out == old(meter.out) + PercentHideText(meter.labelText, meter.rlabel, meter.haveVt100)
    {
      if meter.haveVt100 {
        meter.out := meter.out + "\r" + [ESC] + "[K";
      } else {
        var length := 5 + Utf8Len(meter.labelText) + 1 + Utf8Len(meter.rlabel) + 1;
        meter.out := meter.out + "\r" + Spaces(length) + "\r";
      }
    }

    /**
     * Stores the clamped value; redraws only when the percentage changed and
     * the rate limiter is asked (and agrees) only in that case.
     */
    method Update(value: I32, now: int)
      modifies meter`value, meter`timestamp, meter`out
      ensures meter.value == Min(value, meter.maxValue)
      ensures var before := CalcPercentage(old(meter.value), meter.maxValue);
        if before != Percentage() && RefreshDue(now, old(meter.timestamp)) then
          meter.timestamp == now
          && meter.out == old(meter.out) + PercentRedrawText(meter.rlabel, meter.haveVt100, Percentage())
        else
          meter.timestamp == old(meter.timestamp) && meter.out == old(meter.out)
    {
      var oldPercent := Percentage();
      UpdateValue(value);
      var newPercent := Percentage();
      if newPercent != oldPercent {
        var due := meter.NeedUpdate(now);
        if due {
          UpdateDisplay();
        }
      }
    }

    method UpdateValue(value: I32)
      modifies meter`value
      ensures meter.value == Min(value, meter.maxValue)
      ensures meter.value <= meter.maxValue
    {
      meter.value := value;
      if meter.value > meter.maxValue {
        meter.value := meter.maxValue;
      }
    }

    method UpdateDisplay()
      modifies meter`out
      ensures meter.out == old(meter.out) + PercentRedrawText(meter.rlabel, meter.haveVt100, Percentage())
    {
      var percent := Percentage();
      var field := PercentField(percent);
      ghost var back := BackRlabelText(meter.rlabel, meter.haveVt100);
      AppendAssoc4(meter.out, back, Backspaces(5) + field, Word(meter.rlabel));
      meter.BackRlabel();
      meter.out := meter.out + (Backspaces(5) + field);
      if meter.rlabel != [] {
        meter.out := meter.out + (meter.rlabel + " ");
      }
    }

    method Finish()
      modifies meter`out
      ensures meter.out == old(meter.out) + PercentRedrawText(meter.rlabel, meter.haveVt100, Percentage()) + "\n"
    {
      UpdateDisplay();
      meter.out := meter.out + "\n";
    }
  }

  /** `calc_percentage` never exceeds 100, and is 0 without a maximum. */
  lemma CalcPercentageBounds(value: I32, maxValue: I32)
    ensures CalcPercentage(value, maxValue) <= 100
    ensures maxValue == 0 ==> CalcPercentage(value, maxValue) == 0
    ensures maxValue > 0 && value >= 0 ==> CalcPercentage(value, maxValue) >= 0
  {
    if maxValue > 0 && value >= 0 {
      var n, d := 200 * value + maxValue, 2 * maxValue;
      TruncDivNonNegative(n, d);
      DivMonotonic(0, n, d);
      assert TruncDiv(n, d) >= 0;
    }
  }

  /** In range, `calc_percentage` is `100 * value / max_value` rounded half up. */
  lemma CalcPercentageRounds(value: I32, maxValue: I32)
    requires 0 < maxValue && 0 <= value <= maxValue
    ensures CalcPercentage(value, maxValue) == RoundHalfUp(100 * value, maxValue)
    ensures 0 <= CalcPercentage(value, maxValue) <= 100
  {
    var n := 200 * value + maxValue;
    TruncDivNonNegative(n, 2 * maxValue);
    DivMonotonic(n, 201 * maxValue, 2 * maxValue);
    DivUnique(201 * maxValue, 2 * maxValue, 100);
    assert 2 * (100 * value) + maxValue == n;
  }

  /** A value at or above the maximum shows 100%. */
  lemma CalcPercentageFull(value: I32, maxValue: I32)
    requires 0 < maxValue <= value
    ensures CalcPercentage(value, maxValue) == 100
  {
    var n := 200 * value + maxValue;
    TruncDivNonNegative(n, 2 * maxValue);
    DivMonotonic(201 * maxValue, n, 2 * maxValue);
    DivUnique(201 * maxValue, 2 * maxValue, 100);
  }

  lemma CalcPercentageMonotonic(v1: I32, v2: I32, maxValue: I32)
    requires 0 < maxValue && v1 <= v2
    ensures CalcPercentage(v1, maxValue) <= CalcPercentage(v2, maxValue)
  {
    TruncDivMonotonic(200 * v1 + maxValue, 200 * v2 + maxValue, 2 * maxValue);
  }

  /** The 15% of 384 out of 2560. */
  lemma CalcPercentageExample()
    ensures CalcPercentage(384, 2560) == 15
  {
    CalcPercentageRounds(384, 2560);
  }

  /**
   * The `Display` text of a percentage of at most three characters is never
   * wider than what the fallback `hide` blanks, and exactly as wide when both
   * labels are given in ASCII (`hide` counts bytes, the screen cells).
   */
  lemma PercentLineWidth(labelText: string, rlabel: string, p: int)
    requires -99 <= p <= 999
    ensures |PercentLine(labelText, rlabel, p)| == |Word(labelText)| + 5 + |Word(rlabel)|
    ensures |PercentLine(labelText, rlabel, p)| <= PercentHideWidth(labelText, rlabel)
    ensures labelText != [] && rlabel != [] && Ascii(labelText) && Ascii(rlabel) ==>
      |PercentLine(labelText, rlabel, p)| == PercentHideWidth(labelText, rlabel)
  {
    Width3Length(p);
    Utf8LenBounds(labelText);
    Utf8LenBounds(rlabel);
    Utf8LenAscii(labelText);
    Utf8LenAscii(rlabel);
  }

  /**
   * `update_value` clamps only from above, so a value far below zero gives a
   * percentage of four characters: its field "-999% " is six cells wide, one
   * more than the five backspaces of `update_display` move over.
   */
  lemma NegativePercentTooWide()
    ensures CalcPercentage(-1000, 100) == -999
    ensures |PercentField(-999)| == 6
  {
    assert TruncDiv(200 * -1000 + 100, 200) == -999;
    NatToStringLength(999);
  }

  lemma PlainWord(s: string)
    requires Plain(s)
    ensures Plain(Word(s))
  {
    if s != [] {
      PlainAppend(s, " ");
    }
  }

  lemma PlainPercentTail(rlabel: string, p: int)
    requires Plain(rlabel)
    ensures Plain(PercentField(p) + Word(rlabel))
  {
    PlainWidth3(p);
    PlainAppend(Width3(p), "% ");
    PlainWord(rlabel);
    PlainAppend(PercentField(p), Word(rlabel));
  }

  /**
   * Render in place: on a dumb terminal showing a percentage meter (after any
   * prefix `pre`), `update_display` leaves exactly the meter for the new
   * percentage, with the cursor at its end.
   */
  lemma PercentRedrawInPlace(lines: seq<string>, pre: string, labelText: string, rlabel: string, p: int, q: int)
    requires Plain(rlabel) && Ascii(rlabel)
    requires -99 <= p <= 999 && -99 <= q <= 999
    ensures Run(AtEnd(lines, pre + PercentLine(labelText, rlabel, p)), PercentRedrawText(rlabel, false, q))
         == AtEnd(lines, pre + PercentLine(labelText, rlabel, q))
  {
    var w := Word(rlabel);
    var oldTail, newTail := PercentField(p) + w, PercentField(q) + w;
    Width3Length(p);
    Width3Length(q);
    assert |oldTail| == 5 + |w| == |newTail|;
    var b5 := Backspaces(5);
    BackRlabelFallback(rlabel);
    AppendAssoc(Backspaces(|w|), b5 + PercentField(q), w);
    AppendAssoc(b5, PercentField(q), w);
    AppendAssoc(Backspaces(|w|), b5, newTail);
    RepeatAdd(BS, |w|, 5);
    assert PercentRedrawText(rlabel, false, q) == Backspaces(|oldTail|) + newTail;
    var a := pre + Word(labelText);
    AppendAssoc(Word(labelText), PercentField(p), w);
    AppendAssoc(pre, Word(labelText), oldTail);
    AppendAssoc(Word(labelText), PercentField(q), w);
    AppendAssoc(pre, Word(labelText), newTail);
    PlainPercentTail(rlabel, q);
    RedrawSameWidth(lines, a, oldTail, newTail);
  }

  /**
   * On a dumb terminal whose line holds just the meter, `hide` blanks the
   * line and returns the cursor to column 0.
   */
  lemma PercentHideBlanks(lines: seq<string>, labelText: string, rlabel: string, p: int)
    requires -99 <= p <= 999
    ensures Run(AtEnd(lines, PercentLine(labelText, rlabel, p)), PercentHideText(labelText, rlabel, false))
         == Screen(lines, Spaces(PercentHideWidth(labelText, rlabel)), 0)
  {
    PercentLineWidth(labelText, rlabel, p);
    WipeLine(AtEnd(lines, PercentLine(labelText, rlabel, p)), PercentHideWidth(labelText, rlabel));
  }

  /**
   * `hide` followed by `show` on a dumb terminal: the fresh rendering at the
   * start of the line, followed only by blanks.
   */
  lemma PercentHideThenShow(lines: seq<string>, labelText: string, rlabel: string, p: int, q: int)
    requires Plain(labelText) && Plain(rlabel)
    requires -99 <= p <= 999 && -99 <= q <= 999
    ensures var line := PercentLine(labelText, rlabel, q);
      |line| <= PercentHideWidth(labelText, rlabel)
      && Run(AtEnd(lines, PercentLine(labelText, rlabel, p)), PercentHideText(labelText, rlabel, false) + line)
         == Screen(lines, line + Spaces(PercentHideWidth(labelText, rlabel) - |line|), |line|)
  {
    var n := PercentHideWidth(labelText, rlabel);
    var line := PercentLine(labelText, rlabel, q);
    RunAppend(AtEnd(lines, PercentLine(labelText, rlabel, p)), PercentHideText(labelText, rlabel, false), line);
    PercentHideBlanks(lines, labelText, rlabel, p);
    PercentLineWidth(labelText, rlabel, q);
    PlainWord(labelText);
    PlainPercentTail(rlabel, q);
    PlainAppend(Word(labelText), PercentField(q) + Word(rlabel));
    AppendAssoc(Word(labelText), PercentField(q), Word(rlabel));
    WriteOnBlank(lines, n, line);
  }

  /** `finish` redraws the final percentage in place and ends the line. */
  lemma PercentFinishEndsLine(lines: seq<string>, pre: string, labelText: string, rlabel: string, p: int, q: int)
    requires Plain(rlabel) && Ascii(rlabel)
    requires -99 <= p <= 999 && -99 <= q <= 999
    ensures Run(AtEnd(lines, pre + PercentLine(labelText, rlabel, p)), PercentRedrawText(rlabel, false, q) + "\n")
         == Screen(lines + [pre + PercentLine(labelText, rlabel, q)], [], 0)
  {
    var s := AtEnd(lines, pre + PercentLine(labelText, rlabel, p));
    RunAppend(s, PercentRedrawText(rlabel, false, q), "\n");
    PercentRedrawInPlace(lines, pre, labelText, rlabel, p, q);
    RunNewline(AtEnd(lines, pre + PercentLine(labelText, rlabel, q)));
  }

  // ---------------------------------------------------------------------------
  // ProgressSpinner

  /** The frame after `frame`: `value += 1`, back to 0 at 4. */
  function NextFrame(frame: nat): (next: nat)
    requires frame < 4
    ensures next < 4 && next == (frame + 1) % 4
  {
    if frame + 1 >= 4 then 0 else frame + 1
  }

  /** The glyph of `frame` and its space. */
  function SpinnerField(frame: nat): (r: string)
    requires frame < 4
    ensures |r| == 2
  {
    [SPIN[frame]] + " "
  }

  /** The `Display` text of a spinner. */
  function SpinnerLine(labelText: string, rlabel: string, frame: nat): string
    requires frame < 4
  {
    Word(labelText) + SpinnerField(frame) + Word(rlabel)
  }

  /** What `update_display` prints. */
  function SpinnerRedrawText(rlabel: string, haveVt100: bool, frame: nat): string
    requires frame < 4
  {
    BackRlabelText(rlabel, haveVt100) + (Backspaces(2) + SpinnerField(frame)) + Word(rlabel)
  }

  function SpinnerHideWidth(labelText: string, rlabel: string): nat
  {
    2 + Utf8Len(labelText) + 1 + Utf8Len(rlabel) + 1
  }

  /** What `hide` prints. */
  function SpinnerHideText(labelText: string, rlabel: string, haveVt100: bool): string
  {
    if haveVt100 then "\r" + [ESC] + "[K" else "\r" + Spaces(SpinnerHideWidth(labelText, rlabel)) + "\r"
  }

  /** What `finish` prints. */
  function SpinnerFinishText(rlabel: string, haveVt100: bool): string
  {
    EraseRlabelText(rlabel, haveVt100) + [BS, BS, ' ', ' ', BS, BS]
    + (if rlabel != [] then rlabel + "\n" else "\n")
  }

  class ProgressSpinner {
    const meter: ProgressMeter

    /** `value` is the frame index; `SPIN.chars().nth(value).unwrap()` needs it in range. */
    ghost predicate Valid()
      reads this, meter
    {
      0 <= meter.value < 4
    }

    constructor (now: int)
      ensures fresh(meter) && Valid()
      ensures meter.labelText == [] && meter.rlabel == [] && meter.value == 0 && meter.maxValue == 0
      ensures meter.timestamp == now && !meter.haveVt100 && meter.out == []
    {
      meter := new ProgressMeter(now);
    }

    function Display(): string
      requires Valid()
      reads this, meter
    {
      SpinnerLine(meter.labelText, meter.rlabel, meter.value)
    }

    method GetValue() returns (v: I32)
      ensures v == meter.value
    {
      return meter.value;
    }

    method GetMaxValue() returns (v: I32)
      ensures v == meter.maxValue
    {
      return meter.maxValue;
    }

    method SetLabel(labelText: string)
      modifies meter`labelText
      ensures meter.labelText == labelText
    {
      meter.SetLabel(labelText);
    }

    method SetRlabel(rlabel: string)
      modifies meter`rlabel
      ensures meter.rlabel == rlabel
    {
      meter.SetRlabel(rlabel);
    }

    /** Spinners have no progress value: setting one restarts the animation. */
    method SetValue(value: I32)
      modifies meter`value
      ensures meter.value == 0 && Valid()
    {
      meter.value := 0;
    }

    method SetMaxValue(value: I32)
      modifies meter`maxValue
      ensures meter.maxValue == 0
    {
      meter.maxValue := 0;
    }

    method Show()
      requires Valid()
      modifies meter`out
      ensures meter.out == old(meter.out) + Display()
    {
      meter.out := meter.out + Display();
    }

    method Hide()
      modifies meter`out
      ensures meter.out == old(meter.out) + SpinnerHideText(meter.labelText, meter.rlabel, meter.haveVt100)
    {
      if meter.haveVt100 {
        meter.out := meter.out + "\r" + [ESC] + "[K";
      } else {
        var length := 2 + Utf8Len(meter.labelText) + 1 + Utf8Len(meter.rlabel) + 1;
        meter.out := meter.out + "\r" + Spaces(length) + "\r";
      }
    }

    /** The argument is ignored: each permitted tick advances the frame and redraws. */
    method Update(value: I32, now: int)
      requires Valid()
      modifies meter`value, meter`timestamp, meter`out
      ensures Valid()
      ensures if RefreshDue(now, old(meter.timestamp)) then
          meter.timestamp == now && meter.value == NextFrame(old(meter.value))
          && meter.out == old(meter.out) + SpinnerRedrawText(meter.rlabel, meter.haveVt100, meter.value)
        else
          meter.timestamp == old(meter.timestamp) && meter.value == old(meter.value)
          && meter.out == old(meter.out)
    {
      var due := meter.NeedUpdate(now);
      if due {
        UpdateValue(value);
        UpdateDisplay();
      }
    }

    method UpdateValue(value: I32)
      requires Valid()
      modifies meter`value
      ensures Valid() && meter.value == NextFrame(old(meter.value))
    {
      meter.value := meter.value + 1;
      if meter.value >= 4 {
        meter.value := 0;
      }
    }

    method UpdateDisplay()
      requires Valid()
      modifies meter`out
      ensures meter.out == old(meter.out) + SpinnerRedrawText(meter.rlabel, meter.haveVt100, meter.value)
    {
      ghost var back := BackRlabelText(meter.rlabel, meter.haveVt100);
      AppendAssoc4(meter.out, back, Backspaces(2) + SpinnerField(meter.value), Word(meter.rlabel));
      meter.BackRlabel();
      meter.out := meter.out + (Backspaces(2) + ([SPIN[meter.value]] + " "));
      if meter.rlabel != [] {
        meter.out := meter.out + (meter.rlabel + " ");
      }
    }

    method Finish()
      modifies meter`out
      ensures meter.out == old(meter.out) + SpinnerFinishText(meter.rlabel, meter.haveVt100)
    {
      ghost var start := meter.out;
      var tail := if meter.rlabel != [] then meter.rlabel + "\n" else "\n";
      SpinnerFinishSplit(meter.rlabel, meter.haveVt100);
      meter.EraseRlabel();
      meter.out := meter.out + ([BS, BS, ' ', ' ', BS, BS] + tail);
      AppendAssoc(start, EraseRlabelText(meter.rlabel, meter.haveVt100), [BS, BS, ' ', ' ', BS, BS] + tail);
    }
  }

  lemma SpinnerFinishSplit(rlabel: string, haveVt100: bool)
    ensures SpinnerFinishText(rlabel, haveVt100)
      == EraseRlabelText(rlabel, haveVt100) + ([BS, BS, ' ', ' ', BS, BS] + (if rlabel != [] then rlabel + "\n" else "\n"))
  {
    AppendAssoc(EraseRlabelText(rlabel, haveVt100), [BS, BS, ' ', ' ', BS, BS], if rlabel != [] then rlabel + "\n" else "\n");
  }

  /**
   * The animation shows `| / - \` in this order: every step changes the
   * glyph, and four steps come back to the starting frame.
   */
  lemma {:induction false} SpinnerCycle(frame: nat)
    requires frame < 4
    ensures SPIN[NextFrame(frame)] != SPIN[frame]
    ensures NextFrame(NextFrame(NextFrame(NextFrame(frame)))) == frame
    ensures SPIN == ['|', '/', '-', '\\']
  {
  }

  lemma PlainSpinnerTail(rlabel: string, frame: nat)
    requires Plain(rlabel) && frame < 4
    ensures Plain(SpinnerField(frame) + Word(rlabel))
  {
    PlainWord(rlabel);
    PlainAppend(SpinnerField(frame), Word(rlabel));
  }

  /** Render in place for the spinner: the new frame replaces the old one. */
  lemma SpinnerRedrawInPlace(lines: seq<string>, pre: string, labelText: string, rlabel: string, f: nat, g: nat)
    requires Plain(rlabel) && Ascii(rlabel) && f < 4 && g < 4
    ensures Run(AtEnd(lines, pre + SpinnerLine(labelText, rlabel, f)), SpinnerRedrawText(rlabel, false, g))
         == AtEnd(lines, pre + SpinnerLine(labelText, rlabel, g))
  {
    var w := Word(rlabel);
    var oldTail, newTail := SpinnerField(f) + w, SpinnerField(g) + w;
    var b2 := Backspaces(2);
    BackRlabelFallback(rlabel);
    AppendAssoc(Backspaces(|w|), b2 + SpinnerField(g), w);
    AppendAssoc(b2, SpinnerField(g), w);
    AppendAssoc(Backspaces(|w|), b2, newTail);
    RepeatAdd(BS, |w|, 2);
    assert SpinnerRedrawText(rlabel, false, g) == Backspaces(|oldTail|) + newTail;
    var a := pre + Word(labelText);
    AppendAssoc(Word(labelText), SpinnerField(f), w);
    AppendAssoc(pre, Word(labelText), oldTail);
    AppendAssoc(Word(labelText), SpinnerField(g), w);
    AppendAssoc(pre, Word(labelText), newTail);
    PlainSpinnerTail(rlabel, g);
    RedrawSameWidth(lines, a, oldTail, newTail);
  }

  /** `hide` blanks a line that holds just the spinner. */
  lemma SpinnerHideBlanks(lines: seq<string>, labelText: string, rlabel: string, f: nat)
    requires f < 4
    ensures Run(AtEnd(lines, SpinnerLine(labelText, rlabel, f)), SpinnerHideText(labelText, rlabel, false))
         == Screen(lines, Spaces(SpinnerHideWidth(labelText, rlabel)), 0)
  {
    Utf8LenBounds(labelText);
    Utf8LenBounds(rlabel);
    WipeLine(AtEnd(lines, SpinnerLine(labelText, rlabel, f)), SpinnerHideWidth(labelText, rlabel));
  }

  /** "\b\b  \b\b" blanks the two cells before the cursor and returns there. */
  lemma WipeGlyph(lines: seq<string>, a: string, g: string, n: nat)
    requires |g| == 2
    ensures Run(Screen(lines, a + g + Spaces(n), |a| + 2), [BS, BS, ' ', ' ', BS, BS])
         == Screen(lines, a + Spaces(2 + n), |a|)
  {
    assert [BS, BS, ' ', ' ', BS, BS] == Backspaces(2) + Spaces(2) + Backspaces(2);
    Blot(lines, a, g, Spaces(n));
    RepeatAdd(' ', 2, n);
    AppendAssoc(a, Spaces(2), Spaces(n));
  }

  /**
   * `finish` wipes the spinner and its trailing label and prints the
   * trailing label, as permanent text, where the spinner was.
   */
  lemma SpinnerFinishLeavesRlabel(lines: seq<string>, pre: string, labelText: string, rlabel: string, f: nat)
    requires Plain(rlabel) && Ascii(rlabel) && f < 4
    ensures Run(AtEnd(lines, pre + SpinnerLine(labelText, rlabel, f)), SpinnerFinishText(rlabel, false))
         == Screen(lines + [pre + Word(labelText) + rlabel + Spaces(if rlabel == [] then 2 else 3)], [], 0)
  {
    var a := pre + Word(labelText);
    var g := SpinnerField(f);
    var w := Word(rlabel);
    var s0 := AtEnd(lines, pre + SpinnerLine(labelText, rlabel, f));
    var erase := EraseRlabelText(rlabel, false);
    var wipe: string := [BS, BS, ' ', ' ', BS, BS];
    var last := if rlabel != [] then rlabel + "\n" else "\n";
    RunAppend(s0, erase + wipe, last);
    RunAppend(s0, erase, wipe);
    // erase_rlabel: the trailing label becomes blanks, the cursor stands after the glyph
    AppendAssoc(pre, Word(labelText), g);
    AppendAssoc(pre, Word(labelText) + g, w);
    EraseRlabelBlanks(lines, a + g, rlabel);
    assert Run(s0, erase) == Screen(lines, a + g + Spaces(|w|), |a| + 2);
    // the glyph and its space become blanks, the cursor returns before them
    WipeGlyph(lines, a, g, |w|);
    var s2 := Screen(lines, a + Spaces(2 + |w|), |a|);
    assert Run(s0, erase + wipe) == s2;
    // the trailing label, then the newline
    if rlabel != [] {
      WriteLineOverBlanks(lines, a, rlabel, 3);
      assert 2 + |w| == |rlabel| + 3;
    } else {
      RunNewline(s2);
      assert a + rlabel + Spaces(2) == a + Spaces(2 + |w|);
    }
  }
}
