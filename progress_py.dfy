/**
 * The Python implementation (progress.py): one class `Meter` whose
 * subclasses `Bar`, `Spinner` and `Percent` override `render` (and, for
 * `Spinner`, `update`; for `Percent`, `finish`). The subclass is the meter's
 * `kind`, fixed at construction, and each overridden method branches on it.
 * The clock is the `now` parameter (seconds of `time.monotonic()`), the
 * `TERM` test is the `vt100` argument of the constructors and standard output
 * is the meter's `out`. Float arithmetic is exact (`real`).
 */
module PyProgress {
  import opened Format
  import opened Terminal

  /** `_FPS_RATE`, the default number of redraws per second. */
  const FPS_RATE: real := 4.0

  /** The face of `Spinner`. */
  const SPIN_FACE: string := "|/-\\"

  /** The default face and width of `Bar`. */
  const BAR_FACE: string := "| =|"
  const BAR_WIDTH: int := 20

  /** Which `render` (and `update`, `finish`) a meter uses; a bar and a percentage meter hold their `max_value`. */
  datatype Kind =
    | Basic
    | Bar(maxValue: int, width: int, face: string)
    | Spinner
    | Percent(maxValue: int)

  /**
   * When `render` raises no exception: division by a zero `max_value`, a
   * bar face too short for `face[2]` and a spinner index beyond `-len(face)`
   * are the errors.
   */
  predicate CanRender(kind: Kind, value: int)
  {
    match kind
    case Basic => true
    case Bar(maxValue, _, face) => maxValue != 0 && |face| >= 3
    case Spinner => value >= -5
    case Percent(maxValue) => maxValue != 0
  }

  /** `int(value * (width / max_value) + 0.5)`, `value` capped at the maximum, in exact arithmetic. */
  function BarUnits(value: int, maxValue: int, width: int): int
    requires maxValue != 0
  {
    TruncDiv(2 * Min(value, maxValue) * width + maxValue, 2 * maxValue)
  }

  /** `face[0] + face[2] * units + face[1] * (width - units) + face[-1]`. */
  function BarBody(units: int, width: int, face: string): string
    requires |face| >= 3
  {
    [face[0]] + RepeatInt(face[2], units) + RepeatInt(face[1], width - units) + [face[|face| - 1]]
  }

  /** `Bar.render`: the bar, a space and the value. */
  function BarText(value: int, maxValue: int, width: int, face: string): string
    requires maxValue != 0 && |face| >= 3
  {
    BarBody(BarUnits(value, maxValue, width), width, face) + " " + IntToString(value)
  }

  /** `percent >= 100` for `percent = min(value, max_value) * (100 / max_value)`. */
  predicate PercentReached(value: int, maxValue: int)
    requires maxValue != 0
  {
    (100 * Min(value, maxValue)) as real / maxValue as real >= 100.0
  }

  /** `Percent.render`: "100%" once reached, else `int(percent)` and a percent sign. */
  function PercentText(value: int, maxValue: int): string
    requires maxValue != 0
  {
    if PercentReached(value, maxValue) then "100%"
    else IntToString(TruncDiv(100 * Min(value, maxValue), maxValue)) + "%"
  }

  /** `value += 1`, back to 0 at `len(face)`: the frame `Spinner.render` advances to. */
  function SpinNext(value: int): int
  {
    if value + 1 >= |SPIN_FACE| then 0 else value + 1
  }

  /** `face[value]`, with Python's negative indices. */
  function SpinGlyph(value: int): char
    requires -|SPIN_FACE| <= value < |SPIN_FACE|
  {
    SPIN_FACE[if value < 0 then value + |SPIN_FACE| else value]
  }

  /** What `render` leaves in `self.value`. */
  function NextValue(kind: Kind, value: int): int
  {
    if kind.Spinner? then SpinNext(value) else value
  }

  /** What `render` returns, given `self.value` before the call. */
  function Rendered(kind: Kind, value: int): string
    requires CanRender(kind, value)
  {
    match kind
    case Basic => IntToString(value)
    case Bar(maxValue, width, face) => BarText(value, maxValue, width, face)
    case Spinner => [SpinGlyph(SpinNext(value))]
    case Percent(maxValue) => PercentText(value, maxValue)
  }

  /** The line `_render` builds: the rendering, a space, and the right label with its space. */
  function LineText(kind: Kind, value: int, rlabel: string): string
    requires CanRender(kind, value)
  {
    Rendered(kind, value) + " " + (if rlabel != [] then rlabel + " " else [])
  }

  /** The label as `show` prints it. */
  function Word(labelText: string): string
  {
    if labelText == [] then [] else labelText + " "
  }

  /** `back`: the cursor moved back over the displayed line. */
  function BackText(line: string, vt100: bool): string
  {
    if line == [] then []
    else if vt100 then [ESC] + "[" + IntToString(|line|) + "D"
    else Backspaces(|line|)
  }

  /** `erase`. */
  function EraseText(line: string, vt100: bool): string
  {
    if vt100 then [ESC] + "[K" else Spaces(|line|)
  }

  /** `hide`. */
  function HideText(labelText: string, line: string, vt100: bool): string
  {
    if vt100 then "\r" + [ESC] + "[K"
    else (if labelText != [] then "\r" + Spaces(|labelText| + 1) else BackText(line, false)) + EraseText(line, false) + "\r"
  }

  /** What `_render` prints when the line on screen is `shown` and the new one is `line`. */
  function RedrawText(shown: string, line: string, vt100: bool): string
  {
    if line == shown then [] else BackText(shown, vt100) + line
  }

  /** `diff_time < 1.0 / self.rate`, the test of `update` that skips a redraw. */
  predicate TooSoon(diff: real, rate: real)
    requires rate != 0.0
  {
    diff < 1.0 / rate
  }

  /** The value `update` stores: `Spinner.update` passes the spinner's own value on. */
  function Stored(kind: Kind, current: int, value: int): int
  {
    if kind.Spinner? then current else value
  }

  class Meter {
    var labelText: string
    var rlabel: string
    var value: int
    var clear: bool
    var rate: real
    var visible: bool
    var timestamp: real
    var line: string
    var vt100: bool
    const kind: Kind
    /** Everything printed so far. */
    var out: string

    /**
     * `Meter(label, rlabel, start_value, clear=clear, rate=rate)` without a
     * formatter, with Python's defaults; `vt100` is what `TERM` says.
     */
    constructor (vt100: bool, labelText: string := "", rlabel: string := "", startValue: int := 0,
                 clear: bool := true, rate: real := FPS_RATE)
      ensures this.labelText == labelText && this.rlabel == rlabel && value == startValue && this.clear == clear
      ensures this.rate == rate && this.vt100 == vt100 && kind == Basic
      ensures !visible && timestamp == 0.0 && line == [] && out == []
    {
      this.labelText, this.rlabel, value, this.clear, this.rate := labelText, rlabel, startValue, clear, rate;
      visible, timestamp, line, this.vt100 := false, 0.0, [], vt100;
      kind := Basic;
      out := [];
    }

    /** `Bar(max_value, label, rlabel, start_value, width, face, rate=rate)`: never cleared. */
    constructor Bar(maxValue: int, vt100: bool, labelText: string := "", rlabel: string := "", startValue: int := 0,
                    width: int := BAR_WIDTH, face: string := BAR_FACE, rate: real := FPS_RATE)
      ensures this.labelText == labelText && this.rlabel == rlabel && value == startValue && !clear
      ensures this.rate == rate && this.vt100 == vt100 && kind == Kind.Bar(maxValue, width, face)
      ensures !visible && timestamp == 0.0 && line == [] && out == []
    {
      this.labelText, this.rlabel, value, clear, this.rate := labelText, rlabel, startValue, false, rate;
      visible, timestamp, line, this.vt100 := false, 0.0, [], vt100;
      kind := Kind.Bar(maxValue, width, face);
      out := [];
    }

    /** `Spinner(label, rlabel, rate=rate)`: starts at frame 0 and is cleared when finished. */
    constructor Spinner(vt100: bool, labelText: string := "", rlabel: string := "", rate: real := FPS_RATE)
      ensures this.labelText == labelText && this.rlabel == rlabel && value == 0 && clear
      ensures this.rate == rate && this.vt100 == vt100 && kind == Kind.Spinner
      ensures !visible && timestamp == 0.0 && line == [] && out == []
    {
      this.labelText, this.rlabel, value, clear, this.rate := labelText, rlabel, 0, true, rate;
      visible, timestamp, line, this.vt100 := false, 0.0, [], vt100;
      kind := Kind.Spinner;
      out := [];
    }

    /** `Percent(max_value, label, rlabel, start_value, rate=rate)`: never cleared. */
    constructor Percent(maxValue: int, vt100: bool, labelText: string := "", rlabel: string := "", startValue: int := 0,
                        rate: real := FPS_RATE)
      ensures this.labelText == labelText && this.rlabel == rlabel && value == startValue && !clear
      ensures this.rate == rate && this.vt100 == vt100 && kind == Kind.Percent(maxValue)
      ensures !visible && timestamp == 0.0 && line == [] && out == []
    {
      this.labelText, this.rlabel, value, clear, this.rate := labelText, rlabel, startValue, false, rate;
      visible, timestamp, line, this.vt100 := false, 0.0, [], vt100;
      kind := Kind.Percent(maxValue);
      out := [];
    }

    /** `render`, dispatched on the kind; only the spinner's changes `value`. */
    method Render() returns (r: string)
      requires CanRender(kind, value)
      modifies this`value
      ensures value == NextValue(kind, old(value)) && r == Rendered(kind, old(value))
    {
      match kind
      case Basic =>
        r := IntToString(value);
      case Bar(maxValue, width, face) =>
        r := BarText(value, maxValue, width, face);
      case Spinner =>
        value := value + 1;
        if value >= |SPIN_FACE| {
          value := 0;
        }
        r := [SPIN_FACE[if value < 0 then value + |SPIN_FACE| else value]];
      case Percent(maxValue) =>
        r := PercentText(value, maxValue);
    }

    method Back()
      modifies this`out
      ensures out == old(out) + BackText(line, vt100)
    {
      if line != [] {
        if vt100 {
          out := out + ([ESC] + "[" + IntToString(|line|) + "D");
        } else {
          out := out + Backspaces(|line|);
        }
      }
    }

    method Erase()
      modifies this`out
      ensures out == old(out) + EraseText(line, vt100)
    {
      if vt100 {
        out := out + ([ESC] + "[K");
      } else {
        out := out + Spaces(|line|);
      }
    }

    method Display()
      modifies this`out
      ensures out == old(out) + line
    {
      out := out + line;
    }

    /** `_render`: redraws only when the line changed, backing up over the old one first. */
    method RenderLine()
      requires CanRender(kind, value)
      modifies this`value, this`line, this`out
      ensures value == NextValue(kind, old(value))
      ensures line == LineText(kind, old(value), rlabel)
      ensures out == old(out) + RedrawText(old(line), line, vt100)
    {
      ghost var expected := LineText(kind, value, rlabel);
      var text := Render();
      var next := text + " ";
      if rlabel != [] {
        next := next + (rlabel + " ");
      } else {
        assert next == text + " " + [];
      }
      assert next == expected;
      if next == line {
        return;
      }
      ghost var shown := line;
      Back();
      line := next;
      Display();
      AppendAssoc(old(out), BackText(shown, vt100), next);
    }

    /** `show`: nothing when visible; otherwise the label, the meter, and the clock restarted. */
    method Show(now: real)
      requires !visible ==> CanRender(kind, value)
      modifies this`value, this`line, this`out, this`visible, this`timestamp
      ensures visible
      ensures old(visible) ==> value == old(value) && line == old(line) && out == old(out) && timestamp == old(timestamp)
      ensures !old(visible) ==>
        timestamp == now && value == NextValue(kind, old(value)) && line == LineText(kind, old(value), rlabel)
        && out == old(out) + Word(labelText) + RedrawText(old(line), line, vt100)
    {
      if visible {
        return;
      }
      if labelText != [] {
        out := out + (labelText + " ");
      }
      assert out == old(out) + Word(labelText);
      RenderLine();
      visible := true;
      timestamp := now;
    }

    /** `hide` as written: the line is wiped, but `line` still holds what was on it. */
    method Hide()
      modifies this`visible, this`out
      ensures !visible && out == old(out) + HideText(labelText, line, vt100)
    {
      visible := false;
      if vt100 {
        out := out + ("\r" + [ESC] + "[K");
      } else {
        ghost var o := out;
        ghost var back := if labelText != [] then "\r" + Spaces(|labelText| + 1) else BackText(line, false);
        if labelText != [] {
          out := out + ("\r" + Spaces(|labelText| + 1));
        } else {
          Back();
        }
        assert out == o + back;
        Erase();
        out := out + "\r";
        AppendAssoc4(o, back, EraseText(line, false), "\r");
      }
    }

    /** `hide` forgetting the wiped line, so that `show` draws the meter again. */
    method HideCorrected()
      modifies this`visible, this`line, this`out
      ensures !visible && line == [] && out == old(out) + HideText(labelText, old(line), vt100)
    {
      Hide();
      line := [];
    }

    /**
     * `update`: the value is stored; an invisible meter is shown, a visible one
     * redrawn when at least `1 / rate` seconds passed since the clock was last
     * restarted.
     */
    method Update(value: int, now: real)
      requires visible ==> rate != 0.0
      requires !visible || !TooSoon(now - timestamp, rate) ==> CanRender(kind, Stored(kind, this.value, value))
      modifies this`value, this`line, this`out, this`visible, this`timestamp
      ensures visible
      ensures var v := Stored(kind, old(this.value), value);
        if !old(visible) then
          timestamp == now && this.value == NextValue(kind, v) && line == LineText(kind, v, rlabel)
          && out == old(out) + Word(labelText) + RedrawText(old(line), line, vt100)
        else if TooSoon(now - old(timestamp), rate) then
          this.value == v && timestamp == old(timestamp) && line == old(line) && out == old(out)
        else
          timestamp == now && this.value == NextValue(kind, v) && line == LineText(kind, v, rlabel)
          && out == old(out) + RedrawText(old(line), line, vt100)
    {
      if kind.Spinner? {
        this.value := this.value;
      } else {
        this.value := value;
      }
      if !visible {
        Show(now);
        return;
      }
      var diff := now - timestamp;
      if diff < 1.0 / rate {
        return;
      }
      timestamp := now;
      RenderLine();
    }

    method Reset()
      modifies this`value, this`line
      ensures value == 0 && line == []
    {
      value := 0;
      line := [];
    }

    /**
     * `finish`. A percentage meter is drawn at its maximum and ends the line,
     * but stays visible; the others are hidden when `clear` is set and
     * otherwise drawn once more and end the line, and all become invisible.
     */
    method Finish()
      requires kind.Percent? ==> kind.maxValue != 0
      requires !kind.Percent? && !clear ==> CanRender(kind, value)
      modifies this`value, this`line, this`out, this`visible
      ensures value == 0 && line == []
      ensures kind.Percent? ==>
        visible == old(visible) && out == old(out) + RedrawText(old(line), LineText(kind, kind.maxValue, rlabel), vt100) + "\n"
      ensures !kind.Percent? ==>
        !visible && out == old(out) + (if clear then HideText(labelText, old(line), vt100)
                              else RedrawText(old(line), LineText(kind, old(value), rlabel), vt100) + "\n")
    {
      ghost var shown, v := line, value;
      if kind.Percent? {
        value := kind.maxValue;
        RenderLine();
        assert out == old(out) + RedrawText(shown, LineText(kind, kind.maxValue, rlabel), vt100);
        Reset();
        out := out + "\n";
        return;
      }
      ghost var tail := if clear then HideText(labelText, shown, vt100)
                        else RedrawText(shown, LineText(kind, v, rlabel), vt100) + "\n";
      if clear {
        HideCorrected();
        assert out == old(out) + tail;
      } else {
        RenderLine();
        ghost var redraw := RedrawText(shown, LineText(kind, v, rlabel), vt100);
        assert out == old(out) + redraw;
        out := out + "\n";
        AppendAssoc(old(out), redraw, "\n");
        assert out == old(out) + tail;
      }
      Reset();
      visible := false;
    }
  }

  // ---------------------------------------------------------------------------
  // The rate limiter

  /** With a positive rate, a redraw is skipped exactly when less than `1 / rate` seconds passed. */
  lemma TooSoonInterval(diff: real, rate: real)
    requires rate > 0.0
    ensures TooSoon(diff, rate) <==> diff * rate < 1.0
  {
    var t := 1.0 / rate;
    var one := t * rate;
    assert one == 1.0;
    var p := diff * rate;
    if diff < t {
      assert p < one by { ScaleLess(diff, t, rate); }
    } else {
      assert p >= one by { ScaleLess(diff, t, rate); }
    }
  }

  lemma ScaleLess(a: real, b: real, c: real)
    requires c > 0.0
    ensures a < b <==> a * c < b * c
  {
    if a < b {
      assert (b - a) * c > 0.0;
    } else {
      assert (a - b) * c >= 0.0;
    }
  }

  // ---------------------------------------------------------------------------
  // The bar

  /** The filled cells are the nearest whole number to `value * width / max_value`, halves rounded up. */
  lemma BarUnitsRounds(value: int, maxValue: int, width: int)
    requires maxValue > 0 && value >= 0 && width >= 0
    ensures var units, v := BarUnits(value, maxValue, width), Min(value, maxValue);
      2 * units * maxValue - maxValue <= 2 * v * width < 2 * units * maxValue + maxValue
  {
    var v := Min(value, maxValue);
    var n, d := 2 * v * width + maxValue, 2 * maxValue;
    assert n >= 0 by { assert v * width >= 0; }
    TruncDivNonNegative(n, d);
    DivBounds(n, d);
    var units := n / d;
    assert units * d == 2 * units * maxValue;
    assert (units + 1) * d == 2 * units * maxValue + 2 * maxValue;
  }

  lemma BarUnitsBounds(value: int, maxValue: int, width: int)
    requires maxValue > 0 && value >= 0 && width >= 0
    ensures 0 <= BarUnits(value, maxValue, width) <= width
  {
    var v := Min(value, maxValue);
    var n, d := 2 * v * width + maxValue, 2 * maxValue;
    assert 0 <= n <= 2 * maxValue * width + maxValue by {
      assert v * width >= 0;
      MulMono(v, maxValue, width + 1);
    }
    TruncDivNonNegative(n, d);
    DivMonotonic(0, n, d);
    DivMonotonic(n, 2 * maxValue * width + maxValue, d);
    BarUnitsOfMax(maxValue, width);
  }

  /** At or beyond the maximum every cell is filled. */
  lemma BarUnitsOfMax(maxValue: int, width: int)
    requires maxValue > 0 && width >= 0
    ensures BarUnits(maxValue, maxValue, width) == width
    ensures (2 * maxValue * width + maxValue) / (2 * maxValue) == width
  {
    var n, d := 2 * maxValue * width + maxValue, 2 * maxValue;
    assert width * d <= n < (width + 1) * d;
    DivUnique(n, d, width);
    TruncDivNonNegative(n, d);
  }

  lemma BarUnitsMonotonic(v1: int, v2: int, maxValue: int, width: int)
    requires maxValue > 0 && width >= 0 && v1 <= v2
    ensures BarUnits(v1, maxValue, width) <= BarUnits(v2, maxValue, width)
  {
    var c1, c2 := Min(v1, maxValue), Min(v2, maxValue);
    assert c1 * width <= c2 * width by { MulMono(c1, c2, width + 1); }
    TruncDivMonotonic(2 * c1 * width + maxValue, 2 * c2 * width + maxValue, 2 * maxValue);
  }

  /** The bar's cells: the left end, `units` of `face[2]`, the rest `face[1]`, the right end. */
  lemma BarBodyCells(units: int, width: int, face: string)
    requires 0 <= units <= width && |face| >= 3
    ensures var b := BarBody(units, width, face);
      |b| == width + 2 && b[0] == face[0] && b[width + 1] == face[|face| - 1]
      && forall i :: 1 <= i <= width ==> b[i] == if i <= units then face[2] else face[1]
  {
    var fill, blank := RepeatInt(face[2], units), RepeatInt(face[1], width - units);
    var b := [face[0]] + fill + blank + [face[|face| - 1]];
    assert forall i :: 1 <= i <= units ==> b[i] == fill[i - 1];
    assert forall i :: units < i <= width ==> b[i] == blank[i - 1 - units];
  }

  /**
   * The bar with a non-negative value, positive maximum and width: the left
   * end, `width` cells of which the first `units` are `face[2]` and the rest
   * `face[1]`, the right end, a space and the value.
   */
  lemma BarTextLayout(value: int, maxValue: int, width: int, face: string)
    requires maxValue > 0 && value >= 0 && width >= 0 && |face| >= 3
    ensures var r, units := BarText(value, maxValue, width, face), BarUnits(value, maxValue, width);
      |r| == width + 3 + |IntToString(value)|
      && r[0] == face[0] && r[width + 1] == face[|face| - 1] && r[width + 2] == ' '
      && (forall i :: 1 <= i <= width ==> r[i] == if i <= units then face[2] else face[1])
      && r[width + 3..] == IntToString(value)
  {
    var units := BarUnits(value, maxValue, width);
    BarUnitsBounds(value, maxValue, width);
    var b := BarBody(units, width, face);
    BarBodyCells(units, width, face);
    var r := b + " " + IntToString(value);
    assert r == BarText(value, maxValue, width, face);
    assert forall i :: 0 <= i < |b| ==> r[i] == b[i];
    assert r[width + 2] == ' ';
    assert r[width + 3..] == IntToString(value);
  }

  /** A bar at its maximum is full: every cell is `face[2]`. */
  lemma BarFullAtMax(maxValue: int, width: int, face: string)
    requires maxValue > 0 && width >= 0 && |face| >= 3
    ensures var r := BarText(maxValue, maxValue, width, face);
      forall i :: 1 <= i <= width ==> r[i] == face[2]
  {
    BarUnitsOfMax(maxValue, width);
    BarTextLayout(maxValue, maxValue, width, face);
  }

  // ---------------------------------------------------------------------------
  // The percentage

  /** With a positive maximum, 100% is reached exactly when the value reaches the maximum. */
  lemma PercentReachedIff(value: int, maxValue: int)
    requires maxValue > 0
    ensures PercentReached(value, maxValue) <==> value >= maxValue
  {
    var c := Min(value, maxValue);
    var m := maxValue as real;
    var x := (100 * c) as real / m;
    assert x * m == (100 * c) as real;
    assert (100 * c) as real - 100.0 * m == (x - 100.0) * m;
    if c >= maxValue {
      assert (100 * c) as real >= 100.0 * m;
      assert (x - 100.0) * m >= 0.0;
    } else {
      assert (100 * c) as real < 100.0 * m;
    }
  }

  /**
   * Below the maximum the text is the truncated percentage `p` and a percent
   * sign, with `p` between 0 and 99 and `p / 100` within one percent below
   * `value / max_value`.
   */
  lemma PercentBelowMax(value: int, maxValue: int)
    requires maxValue > 0 && 0 <= value < maxValue
    ensures var p := TruncDiv(100 * value, maxValue);
      0 <= p < 100 && p * maxValue <= 100 * value < (p + 1) * maxValue
      && PercentText(value, maxValue) == IntToString(p) + "%"
  {
    PercentReachedIff(value, maxValue);
    var p := TruncDiv(100 * value, maxValue);
    TruncDivNonNegative(100 * value, maxValue);
    DivBounds(100 * value, maxValue);
    DivMonotonic(100 * value, 100 * maxValue - 1, maxValue);
    DivUnique(100 * maxValue - 1, maxValue, 99);
  }

  /** Different from "100%" below the maximum, "100%" at it and above. */
  lemma PercentTextIs100(value: int, maxValue: int)
    requires maxValue > 0 && value >= 0
    ensures PercentText(value, maxValue) == "100%" <==> value >= maxValue
  {
    PercentReachedIff(value, maxValue);
    if value < maxValue {
      PercentBelowMax(value, maxValue);
      var p := TruncDiv(100 * value, maxValue);
      NatToStringLength(p);
      assert |PercentText(value, maxValue)| <= 3;
    }
  }

  lemma DivSelf(a: real, m: real)
    requires m != 0.0
    ensures (a * m) / m == a
  {
  }

  /** `Percent.finish` sets the value to the maximum, which always renders as 100%. */
  lemma PercentAtMax(maxValue: int)
    requires maxValue != 0
    ensures PercentText(maxValue, maxValue) == "100%"
  {
    assert Min(maxValue, maxValue) == maxValue;
    var m := maxValue as real;
    assert (100 * maxValue) as real == 100.0 * m;
    assert (100.0 * m) / m == 100.0 by { DivSelf(100.0, m); }
  }

  // ---------------------------------------------------------------------------
  // The spinner

  /** Frames stay in range, cycle with period 4 and consecutive frames differ. */
  lemma SpinnerCycle(value: int)
    requires 0 <= value < 4
    ensures 0 <= SpinNext(value) < 4
    ensures SpinNext(SpinNext(SpinNext(SpinNext(value)))) == value
    ensures SpinGlyph(SpinNext(value)) != SpinGlyph(value)
  {
  }

  /** From any value Python can index with, the next frame is one of the four glyphs. */
  lemma SpinnerFrame(value: int)
    requires value >= -5
    ensures -4 <= SpinNext(value) < 4
    ensures value >= -1 ==> 0 <= SpinNext(value) < 4
    ensures SpinGlyph(SpinNext(value)) in SPIN_FACE
  {
  }

  // ---------------------------------------------------------------------------
  // On a dumb terminal

  lemma PlainBar(value: int, maxValue: int, width: int, face: string)
    requires maxValue != 0 && |face| >= 3 && Plain(face)
    ensures Plain(BarText(value, maxValue, width, face))
  {
    var b := BarBody(BarUnits(value, maxValue, width), width, face);
    assert Plain(b) by {
      assert forall i :: 0 <= i < |b| ==> b[i] in face;
    }
    PlainAppend(b, " ");
    PlainIntToString(value);
    PlainAppend(b + " ", IntToString(value));
  }

  lemma PlainPercent(value: int, maxValue: int)
    requires maxValue != 0
    ensures Plain(PercentText(value, maxValue))
  {
    if !PercentReached(value, maxValue) {
      var digits := IntToString(TruncDiv(100 * Min(value, maxValue), maxValue));
      PlainIntToString(TruncDiv(100 * Min(value, maxValue), maxValue));
      PlainAppend(digits, "%");
    }
  }

  lemma PlainRendered(kind: Kind, value: int)
    requires CanRender(kind, value)
    requires kind.Bar? ==> Plain(kind.face)
    ensures Plain(Rendered(kind, value))
  {
    match kind
    case Basic => PlainIntToString(value);
    case Bar(maxValue, width, face) => PlainBar(value, maxValue, width, face);
    case Spinner =>
    case Percent(maxValue) => PlainPercent(value, maxValue);
  }

  /** The meter's line contains no backspace, return or newline when the right label and the face do not. */
  lemma PlainLine(kind: Kind, value: int, rlabel: string)
    requires CanRender(kind, value) && Plain(rlabel)
    requires kind.Bar? ==> Plain(kind.face)
    ensures Plain(LineText(kind, value, rlabel))
  {
    var r := Rendered(kind, value);
    PlainRendered(kind, value);
    PlainAppend(r, " ");
    if rlabel != [] {
      PlainAppend(rlabel, " ");
      PlainAppend(r + " ", rlabel + " ");
    } else {
      assert r + " " + [] == r + " ";
    }
  }

  /**
   * `_render` on a dumb terminal, the cursor after the displayed line: the
   * new line replaces the old one where it stands; when it is shorter, the
   * cells of the old line beyond it stay on screen.
   */
  lemma RedrawInPlace(lines: seq<string>, pre: string, shown: string, line: string)
    requires Plain(line)
    ensures Run(AtEnd(lines, pre + shown), RedrawText(shown, line, false))
         == if |line| >= |shown| then AtEnd(lines, pre + line)
            else Screen(lines, pre + line + shown[|line|..], |pre| + |line|)
  {
    if line != shown {
      assert BackText(shown, false) == Backspaces(|shown|);
      Redraw(lines, pre, shown, line);
    } else {
      assert Run(AtEnd(lines, pre + shown), []) == AtEnd(lines, pre + shown);
    }
  }

  /**
   * `hide` on a dumb terminal, the cursor after the label and the line: every
   * cell they took is blank and the cursor is back at the start of the line.
   */
  lemma HideBlanks(lines: seq<string>, labelText: string, line: string)
    ensures Run(AtEnd(lines, Word(labelText) + line), HideText(labelText, line, false))
         == Screen(lines, Spaces(|Word(labelText)| + |line|), 0)
  {
    var s := AtEnd(lines, Word(labelText) + line);
    var n := |Word(labelText)| + |line|;
    if labelText != [] {
      assert HideText(labelText, line, false) == "\r" + Spaces(n) + "\r" by {
        RepeatAdd(' ', |labelText| + 1, |line|);
        AppendAssoc("\r", Spaces(|labelText| + 1), Spaces(|line|));
      }
      WipeLine(s, n);
    } else {
      assert Word(labelText) + line == [] + line;
      var s1 := Screen(lines, [] + line, 0);
      assert Run(s, Backspaces(|line|)) == s1 by { BackOver(lines, [], line); }
      assert Run(s1, Spaces(|line|)) == Screen(lines, Spaces(|line|), |line|) by {
        SpacesArePlain(|line|);
        WriteOver(lines, [], line, Spaces(|line|));
      }
      RunAppend(s, Backspaces(|line|), Spaces(|line|));
      RunAppend(s, Backspaces(|line|) + Spaces(|line|), "\r");
      RunCarriageReturn(Screen(lines, Spaces(|line|), |line|));
    }
  }

  /**
   * `finish` of a meter that is not cleared, on a dumb terminal: the final
   * line replaces the shown one and the line is ended.
   */
  lemma FinishEndsLine(lines: seq<string>, pre: string, shown: string, line: string)
    requires Plain(line) && |line| >= |shown|
    ensures Run(AtEnd(lines, pre + shown), RedrawText(shown, line, false) + "\n")
         == Screen(lines + [pre + line], [], 0)
  {
    RunAppend(AtEnd(lines, pre + shown), RedrawText(shown, line, false), "\n");
    RedrawInPlace(lines, pre, shown, line);
    RunNewline(AtEnd(lines, pre + line));
  }

  /** The final line of `Percent.finish` starts with "100%". */
  lemma PercentFinishShows100(maxValue: int, rlabel: string)
    requires maxValue != 0
    ensures LineText(Kind.Percent(maxValue), maxValue, rlabel)[..4] == "100%"
  {
    PercentAtMax(maxValue);
    var r := LineText(Kind.Percent(maxValue), maxValue, rlabel);
    assert r[..4] == PercentText(maxValue, maxValue);
  }

  // ---------------------------------------------------------------------------
  // Showing a hidden meter again

  /**
   * `hide` as written keeps the wiped text in `line`. When `show` then renders
   * the same text, `_render` prints nothing: the dumb terminal shows the
   * label followed by blanks, and no meter, although the meter is visible.
   */
  lemma HideShowAsWrittenLosesMeter(lines: seq<string>, labelText: string, line: string)
    requires Plain(labelText)
    ensures var hidden := Run(AtEnd(lines, Word(labelText) + line), HideText(labelText, line, false));
      Run(hidden, Word(labelText) + RedrawText(line, line, false))
      == Screen(lines, Word(labelText) + Spaces(|line|), |Word(labelText)|)
  {
    var n := |Word(labelText)| + |line|;
    var hidden := Run(AtEnd(lines, Word(labelText) + line), HideText(labelText, line, false));
    assert hidden == Screen(lines, Spaces(n), 0) by { HideBlanks(lines, labelText, line); }
    assert Word(labelText) + RedrawText(line, line, false) == Word(labelText);
    assert Plain(Word(labelText)) by {
      if labelText != [] { PlainAppend(labelText, " "); }
    }
    WriteOnBlank(lines, n, Word(labelText));
  }

  /**
   * With `HideCorrected`, `show` draws the whole meter after the label on
   * the wiped line.
   */
  lemma HideShowCorrectedShowsMeter(lines: seq<string>, labelText: string, line: string, next: string)
    requires Plain(labelText) && Plain(next) && next != []
    ensures var hidden := Run(AtEnd(lines, Word(labelText) + line), HideText(labelText, line, false));
      var w, n := Word(labelText) + next, |Word(labelText)| + |line|;
      Run(hidden, Word(labelText) + RedrawText([], next, false))
      == Screen(lines, w + (if |w| < n then Spaces(n - |w|) else []), |w|)
  {
    var n := |Word(labelText)| + |line|;
    var w := Word(labelText) + next;
    var blank := Screen(lines, Spaces(n), 0);
    assert Run(AtEnd(lines, Word(labelText) + line), HideText(labelText, line, false)) == blank by {
      HideBlanks(lines, labelText, line);
    }
    assert Word(labelText) + RedrawText([], next, false) == w by {
      assert BackText([], false) + next == next;
    }
    assert Plain(w) by {
      if labelText != [] { PlainAppend(labelText, " "); }
      PlainAppend(Word(labelText), next);
    }
    WriteOnAnyBlank(lines, n, w);
  }


}
