/**
 * The Go implementation (src/github.com/walterdejong/progress/progress.go):
 * a `Meter` struct embedded in the `Bar`, `Spinner` and `Percent` structs.
 * Embedding is modelled by a `meter` object each indicator holds; the
 * exported fields are fields clients may assign directly, as in Go. The
 * clock is the `now` parameter (milliseconds since the zero `time.Time`,
 * which is where a zero-valued `Timestamp` stands) and standard output is
 * the meter's `out`.
 */
module GoProgress {
  import opened Format
  import opened Terminal

  /** `refresh`, a quarter second. */
  const REFRESH_MS: int := 250

  const SPIN: string := "|/-\\"

  /** `barWidth`, the width a bar without a positive `Width` gets. */
  const BAR_WIDTH: int := 10

  /** The largest Go `int` (64 bits). */
  const INT_MAX: int := 0x7fff_ffff_ffff_ffff

  /** The test in `shouldRefresh`. */
  predicate RefreshDue(now: int, timestamp: int) { now - timestamp >= REFRESH_MS }

  /** The label as `Meter.Show` prints it: followed by a space, or nothing when empty. */
  function Word(s: string): (r: string)
    ensures |r| == if s == [] then 0 else |s| + 1
  {
    if s == [] then [] else s + " "
  }

  /** The width `Bar.render` settles on. */
  function EffectiveWidth(width: int): (w: int)
    ensures w > 0 && (width > 0 ==> w == width)
  {
    if width <= 0 then BAR_WIDTH else width
  }

  /** `int(float32(value) * one_unit + 0.5)` in exact arithmetic, `value` capped at the maximum. */
  function BarUnits(value: int, maxValue: int, width: int): int
    requires maxValue > 0
  {
    TruncDiv(2 * width * Min(value, maxValue) + maxValue, 2 * maxValue)
  }

  /** The bar `Bar.render` builds: `units` cells of '=' and the rest blank, between two '|'. */
  function BarText(units: int, width: int): (r: string)
    requires 0 <= units <= width
    ensures |r| == width + 2 && r[0] == '|' && r[width + 1] == '|'
    ensures forall i :: 1 <= i <= width ==> r[i] == if i <= units then '=' else ' '
  {
    var fill, blank := Repeat('=', units), Repeat(' ', width - units);
    var r := "|" + fill + blank + "|";
    assert forall i :: 1 <= i <= units ==> r[i] == fill[i - 1];
    assert forall i :: units < i <= width ==> r[i] == blank[i - 1 - units];
    r
  }

  /** `int32(float32(value) * one_percent + 0.5)`, capped at 100. */
  function PercentValue(value: int, maxValue: int): int
    requires maxValue > 0
  {
    var percent := TruncDiv(200 * Min(value, maxValue) + maxValue, 2 * maxValue);
    if percent > 100 then 100 else percent
  }

  /** `fmt.Sprintf("%3d%%", percent)`. */
  function PercentText(p: int): string { Width3(p) + "%" }

  /** `Value++`, back to 0 at 4: the frame `Spinner.render` advances to. */
  function SpinNext(value: int): int
  {
    if value + 1 >= 4 then 0 else value + 1
  }

  /** What `Spinner.Finish` prints before the newline: the glyph and its space blanked. */
  function SpinnerEraseText(): string { Backspaces(2) + Spaces(2) + Backspaces(2) }

  class Meter {
    var Value: int
    var MaxValue: int
    var Label: string
    var Timestamp: int
    var visible: bool
    var line: string
    /** Everything printed so far. */
    var out: string

    /** The zero value `Meter{}`. */
    constructor ()
      ensures Value == 0 && MaxValue == 0 && Label == [] && Timestamp == 0
      ensures !visible && line == [] && out == []
    {
      Value, MaxValue, Label := 0, 0, [];
      Timestamp := 0;
      visible, line, out := false, [], [];
    }

    method ShouldRefresh(now: int) returns (r: bool)
      ensures r <==> RefreshDue(now, Timestamp)
    {
      var elapsed := now - Timestamp;
      return elapsed >= REFRESH_MS;
    }

    /** Restarts the clock on every call; prints the label only the first time. */
    method Show(now: int)
      modifies this`Timestamp, this`visible, this`out
      ensures Timestamp == now && visible
      ensures out == old(out) + (if old(visible) then [] else Word(Label))
    {
      Timestamp := now;
      if visible {
        return;
      }
      if Label != [] {
        out := out + (Label + " ");
      }
      visible := true;
    }

    method Finish()
      modifies this`visible, this`line, this`out
      ensures !visible && line == [] && out == old(out) + "\n"
    {
      out := out + "\n";
      visible := false;
      line := [];
    }
  }

  class Bar {
    const meter: Meter
    var Width: int

    /** The zero value `Bar{}`. */
    constructor ()
      ensures fresh(meter) && Width == 0
      ensures meter.Value == 0 && meter.MaxValue == 0 && meter.Label == [] && meter.Timestamp == 0
      ensures !meter.visible && meter.line == [] && meter.out == []
    {
      meter := new Meter();
      Width := 0;
    }

    method Render()
      requires meter.MaxValue > 0 && meter.Value >= 0
      modifies this`Width, meter`line
      ensures Width == EffectiveWidth(old(Width))
      ensures 0 <= BarUnits(meter.Value, meter.MaxValue, Width) <= Width
      ensures meter.line == BarText(BarUnits(meter.Value, meter.MaxValue, Width), Width)
    {
      if Width <= 0 {
        Width := BAR_WIDTH;
      }
      var value := meter.Value;
      if value > meter.MaxValue {
        value := meter.MaxValue;
      }
      var units := TruncDiv(2 * Width * value + meter.MaxValue, 2 * meter.MaxValue);
      BarUnitsBounds(meter.Value, meter.MaxValue, Width);
      meter.line := "|" + Repeat('=', units) + Repeat(' ', Width - units) + "|";
    }

    method Show(now: int)
      requires meter.MaxValue > 0 && meter.Value >= 0
      modifies this`Width, meter`Timestamp, meter`visible, meter`line, meter`out
      ensures meter.Timestamp == now && meter.visible
      ensures Width == EffectiveWidth(old(Width))
      ensures 0 <= BarUnits(meter.Value, meter.MaxValue, Width) <= Width
      ensures meter.line == BarText(BarUnits(meter.Value, meter.MaxValue, Width), Width)
      ensures meter.out == old(meter.out) + (if old(meter.visible) then [] else Word(meter.Label)) + (meter.line + " ")
    {
      meter.Show(now);
      ghost var o := meter.out;
      assert o == old(meter.out) + (if old(meter.visible) then [] else Word(meter.Label));
      Render();
      meter.out := meter.out + (meter.line + " ");
      assert meter.out == o + (meter.line + " ");
    }

    /**
     * Stores the value; when the rate limiter allows it and the bar changed,
     * backs over the bar and its space and prints the new one. `Timestamp`
     * is not touched.
     */
    method Update(value: int, now: int)
      requires meter.MaxValue > 0 && value >= 0
      modifies this`Width, meter`Value, meter`line, meter`out
      ensures meter.Value == value
      ensures if !RefreshDue(now, meter.Timestamp) then
          Width == old(Width) && meter.line == old(meter.line) && meter.out == old(meter.out)
        else
          Width == EffectiveWidth(old(Width))
          && 0 <= BarUnits(value, meter.MaxValue, Width) <= Width
          && meter.line == BarText(BarUnits(value, meter.MaxValue, Width), Width)
          && meter.out == old(meter.out) + (if old(meter.line) == meter.line then []
                                            else Backspaces(Width + 3) + (meter.line + " "))
    {
      meter.Value := value;
      var due := meter.ShouldRefresh(now);
      if !due {
        return;
      }
      var lineCopy := meter.line;
      Render();
      if lineCopy == meter.line {
        return;
      }
      var erase := Backspaces(Width + 3);
      meter.out := meter.out + (erase + (meter.line + " "));
    }

    /**
     * `Bar.Finish` as written: the value is set to the maximum, but the final
     * bar goes through `Update` and so is drawn only when the rate limiter
     * allows it.
     */
    method Finish(now: int)
      requires meter.MaxValue > 0
      modifies this`Width, meter`Value, meter`line, meter`out, meter`visible
      ensures meter.Value == meter.MaxValue && !meter.visible && meter.line == []
      ensures Width == if RefreshDue(now, meter.Timestamp) then EffectiveWidth(old(Width)) else old(Width)
      ensures var w := EffectiveWidth(old(Width));
        var full := BarText(w, w);
        meter.out == old(meter.out)
          + (if RefreshDue(now, meter.Timestamp) && old(meter.line) != full then Backspaces(w + 3) + (full + " ") else [])
          + "\n"
    {
      meter.Value := meter.MaxValue;
      ghost var w := EffectiveWidth(Width);
      BarUnitsFull(meter.MaxValue, meter.MaxValue, w);
      Update(meter.Value, now);
      meter.Finish();
    }

    /** `Bar.Finish` with the final bar drawn whatever the clock says, as its comment intends. */
    method FinishCorrected()
      requires meter.MaxValue > 0
      modifies this`Width, meter`Value, meter`line, meter`out, meter`visible
      ensures meter.Value == meter.MaxValue && !meter.visible && meter.line == []
      ensures Width == EffectiveWidth(old(Width))
      ensures var full := BarText(Width, Width);
        meter.out == old(meter.out) + (if old(meter.line) != full then Backspaces(Width + 3) + (full + " ") else []) + "\n"
    {
      meter.Value := meter.MaxValue;
      var lineCopy := meter.line;
      Render();
      BarUnitsFull(meter.MaxValue, meter.MaxValue, Width);
      if lineCopy != meter.line {
        meter.out := meter.out + (Backspaces(Width + 3) + (meter.line + " "));
      }
      meter.Finish();
    }
  }

  class Spinner {
    const meter: Meter

    /** The zero value `Spinner{}`. */
    constructor ()
      ensures fresh(meter)
      ensures meter.Value == 0 && meter.MaxValue == 0 && meter.Label == [] && meter.Timestamp == 0
      ensures !meter.visible && meter.line == [] && meter.out == []
    {
      meter := new Meter();
    }

    /** Advances the frame; a value below -1 would index outside `spinnerText`. */
    method Render()
      requires -1 <= meter.Value < INT_MAX
      modifies meter`Value, meter`line
      ensures meter.Value == SpinNext(old(meter.Value)) && 0 <= meter.Value < 4
      ensures meter.line == [SPIN[meter.Value]]
    {
      meter.Value := meter.Value + 1;
      if meter.Value >= 4 {
        meter.Value := 0;
      }
      meter.line := [SPIN[meter.Value]];
    }

    method Show(now: int)
      requires -1 <= meter.Value < INT_MAX
      modifies meter`Value, meter`Timestamp, meter`visible, meter`line, meter`out
      ensures meter.Timestamp == now && meter.visible
      ensures meter.Value == SpinNext(old(meter.Value)) && 0 <= meter.Value < 4
      ensures meter.line == [SPIN[meter.Value]]
      ensures meter.out == old(meter.out) + (if old(meter.visible) then [] else Word(meter.Label)) + (meter.line + " ")
    {
      meter.Show(now);
      ghost var o := meter.out;
      assert o == old(meter.out) + (if old(meter.visible) then [] else Word(meter.Label));
      Render();
      meter.out := meter.out + (meter.line + " ");
      assert meter.out == o + (meter.line + " ");
    }

    /** Ignores `value`; when the rate limiter allows it, always redraws the next frame. */
    method Update(value: int, now: int)
      requires -1 <= meter.Value < INT_MAX
      modifies meter`Value, meter`line, meter`out
      ensures if !RefreshDue(now, meter.Timestamp) then
          meter.Value == old(meter.Value) && meter.line == old(meter.line) && meter.out == old(meter.out)
        else
          meter.Value == SpinNext(old(meter.Value)) && 0 <= meter.Value < 4
          && meter.line == [SPIN[meter.Value]]
          && meter.out == old(meter.out) + (Backspaces(2) + (meter.line + " "))
    {
      var due := meter.ShouldRefresh(now);
      if !due {
        return;
      }
      ghost var o := meter.out;
      meter.out := meter.out + [BS, BS];
      Render();
      meter.out := meter.out + (meter.line + " ");
      assert [BS, BS] == Backspaces(2);
      AppendAssoc(o, Backspaces(2), meter.line + " ");
    }

    method Finish()
      modifies meter`visible, meter`line, meter`out
      ensures !meter.visible && meter.line == []
      ensures meter.out == old(meter.out) + SpinnerEraseText() + "\n"
    {
      var erase := [BS, BS, ' ', ' ', BS, BS];
      assert erase == SpinnerEraseText();
      meter.out := meter.out + erase;
      meter.Finish();
    }
  }

  class Percent {
    const meter: Meter

    /** The zero value `Percent{}`. */
    constructor ()
      ensures fresh(meter)
      ensures meter.Value == 0 && meter.MaxValue == 0 && meter.Label == [] && meter.Timestamp == 0
      ensures !meter.visible && meter.line == [] && meter.out == []
    {
      meter := new Meter();
    }

    method Render()
      requires meter.MaxValue > 0
      modifies meter`line
      ensures meter.line == PercentText(PercentValue(meter.Value, meter.MaxValue))
    {
      var value := meter.Value;
      if value > meter.MaxValue {
        value := meter.MaxValue;
      }
      var percent := TruncDiv(200 * value + meter.MaxValue, 2 * meter.MaxValue);
      if percent > 100 {
        percent := 100;
      }
      assert percent == PercentValue(meter.Value, meter.MaxValue);
      meter.line := Width3(percent) + "%";
    }

    method Show(now: int)
      requires meter.MaxValue > 0
      modifies meter`Timestamp, meter`visible, meter`line, meter`out
      ensures meter.Timestamp == now && meter.visible
      ensures meter.line == PercentText(PercentValue(meter.Value, meter.MaxValue))
      ensures meter.out == old(meter.out) + (if old(meter.visible) then [] else Word(meter.Label)) + (meter.line + " ")
    {
      meter.Show(now);
      ghost var o := meter.out;
      assert o == old(meter.out) + (if old(meter.visible) then [] else Word(meter.Label));
      Render();
      meter.out := meter.out + (meter.line + " ");
      assert meter.out == o + (meter.line + " ");
    }

    /** Stores the value; when the rate limiter allows it and the text changed, redraws it. */
    method Update(value: int, now: int)
      requires meter.MaxValue > 0
      modifies meter`Value, meter`line, meter`out
      ensures meter.Value == value
      ensures if !RefreshDue(now, meter.Timestamp) then
          meter.line == old(meter.line) && meter.out == old(meter.out)
        else
          meter.line == PercentText(PercentValue(value, meter.MaxValue))
          && meter.out == old(meter.out) + (if old(meter.line) == meter.line then []
                                            else Backspaces(5) + (meter.line + " "))
    {
      meter.Value := value;
      var due := meter.ShouldRefresh(now);
      if !due {
        return;
      }
      var lineCopy := meter.line;
      Render();
      if lineCopy == meter.line {
        return;
      }
      var back := [BS, BS, BS, BS, BS];
      assert back == Backspaces(5);
      meter.out := meter.out + (back + (meter.line + " "));
    }

    /** `Percent.Finish` as written: the final 100% is drawn only when the rate limiter allows it. */
    method Finish(now: int)
      requires meter.MaxValue > 0
      modifies meter`Value, meter`line, meter`out, meter`visible
      ensures meter.Value == meter.MaxValue && !meter.visible && meter.line == []
      ensures meter.out == old(meter.out)
        + (if RefreshDue(now, meter.Timestamp) && old(meter.line) != "100%" then Backspaces(5) + "100% " else [])
        + "\n"
    {
      meter.Value := meter.MaxValue;
      PercentFinalText(meter.MaxValue);
      FullPercentWord();
      ghost var o, shown := meter.out, meter.line;
      Update(meter.Value, now);
      assert meter.out == o + (if RefreshDue(now, meter.Timestamp) && shown != "100%" then Backspaces(5) + "100% " else []);
      meter.Finish();
    }

    /** `Percent.Finish` with the final 100% drawn whatever the clock says. */
    method FinishCorrected()
      requires meter.MaxValue > 0
      modifies meter`Value, meter`line, meter`out, meter`visible
      ensures meter.Value == meter.MaxValue && !meter.visible && meter.line == []
      ensures meter.out == old(meter.out) + (if old(meter.line) != "100%" then Backspaces(5) + "100% " else []) + "\n"
    {
      meter.Value := meter.MaxValue;
      var lineCopy := meter.line;
      Render();
      PercentFinalText(meter.MaxValue);
      FullPercentWord();
      ghost var o := meter.out;
      if lineCopy != meter.line {
        meter.out := meter.out + (Backspaces(5) + (meter.line + " "));
      }
      assert meter.out == o + (if lineCopy != "100%" then Backspaces(5) + "100% " else []);
      meter.Finish();
    }
  }

  // ---------------------------------------------------------------------------
  // The bar

  /** For a value in range the bar has `width * value / max_value` cells filled, rounded half up. */
  lemma BarUnitsRounds(value: int, maxValue: int, width: int)
    requires 0 < maxValue && 0 <= value <= maxValue && width > 0
    ensures BarUnits(value, maxValue, width) == RoundHalfUp(width * value, maxValue)
  {
    var n := 2 * width * value + maxValue;
    TruncDivNonNegative(n, 2 * maxValue);
    assert 2 * (width * value) + maxValue == n;
  }

  /** A non-negative value fills between 0 and `width` cells: the bar is always `width + 2` wide. */
  lemma BarUnitsBounds(value: int, maxValue: int, width: int)
    requires 0 < maxValue && 0 <= value && width > 0
    ensures 0 <= BarUnits(value, maxValue, width) <= width
  {
    var v := Min(value, maxValue);
    var n := 2 * width * v + maxValue;
    TruncDivNonNegative(n, 2 * maxValue);
    MulMono(v, maxValue, 2 * width);
    assert n <= (2 * width + 1) * maxValue;
    DivMonotonic(0, n, 2 * maxValue);
    DivMonotonic(n, (2 * width + 1) * maxValue, 2 * maxValue);
    BarUnitsOfMax(maxValue, width);
  }

  lemma BarUnitsOfMax(maxValue: int, width: int)
    requires 0 < maxValue && width > 0
    ensures (2 * width + 1) * maxValue / (2 * maxValue) == width
  {
    var n := (2 * width + 1) * maxValue;
    assert n == width * (2 * maxValue) + maxValue;
    assert (width + 1) * (2 * maxValue) == width * (2 * maxValue) + 2 * maxValue;
    DivUnique(n, 2 * maxValue, width);
  }

  /** Any value at or above the maximum fills every cell. */
  lemma BarUnitsFull(value: int, maxValue: int, width: int)
    requires 0 < maxValue <= value && width > 0
    ensures BarUnits(value, maxValue, width) == width
    ensures BarText(width, width) == "|" + Repeat('=', width) + "|"
  {
    var n := 2 * width * maxValue + maxValue;
    assert Min(value, maxValue) == maxValue;
    assert n == (2 * width + 1) * maxValue;
    TruncDivNonNegative(n, 2 * maxValue);
    BarUnitsOfMax(maxValue, width);
    assert Repeat(' ', 0) == [];
  }

  /** More progress never shows fewer '=' cells. */
  lemma BarUnitsMonotonic(v1: int, v2: int, maxValue: int, width: int)
    requires 0 < maxValue && v1 <= v2 && width > 0
    ensures BarUnits(v1, maxValue, width) <= BarUnits(v2, maxValue, width)
  {
    MulMono(Min(v1, maxValue), Min(v2, maxValue), 2 * width);
    TruncDivMonotonic(2 * width * Min(v1, maxValue) + maxValue, 2 * width * Min(v2, maxValue) + maxValue, 2 * maxValue);
  }

  /** The bar shows its number of units: bars of one width differ when their units differ. */
  lemma BarTextInjective(u1: int, u2: int, width: int)
    requires 0 <= u1 <= width && 0 <= u2 <= width
    ensures BarText(u1, width) == BarText(u2, width) <==> u1 == u2
  {
    if u1 != u2 {
      var i := if u1 < u2 then u2 else u1;
      assert BarText(u1, width)[i] != BarText(u2, width)[i];
    }
  }

  lemma BarTextPlain(units: int, width: int)
    requires 0 <= units <= width
    ensures Plain(BarText(units, width))
  {
  }

  /**
   * On a dumb terminal the `Width + 3` backspaces of `Bar.Update` move back
   * over exactly the bar and its space, and the new bar replaces the old one.
   */
  lemma BarRedrawInPlace(lines: seq<string>, pre: string, u1: int, u2: int, width: int)
    requires 0 <= u1 <= width && 0 <= u2 <= width
    ensures Run(AtEnd(lines, pre + (BarText(u1, width) + " ")), Backspaces(width + 3) + (BarText(u2, width) + " "))
         == AtEnd(lines, pre + (BarText(u2, width) + " "))
  {
    BarTextPlain(u2, width);
    PlainAppend(BarText(u2, width), " ");
    RedrawSameWidth(lines, pre, BarText(u1, width) + " ", BarText(u2, width) + " ");
  }

  // ---------------------------------------------------------------------------
  // The percentage

  /** For a value in range the percentage is `100 * value / max_value` rounded half up. */
  lemma PercentValueRounds(value: int, maxValue: int)
    requires 0 < maxValue && 0 <= value <= maxValue
    ensures PercentValue(value, maxValue) == RoundHalfUp(100 * value, maxValue)
    ensures 0 <= PercentValue(value, maxValue) <= 100
  {
    var n := 200 * value + maxValue;
    TruncDivNonNegative(n, 2 * maxValue);
    DivMonotonic(n, 201 * maxValue, 2 * maxValue);
    DivMonotonic(0, n, 2 * maxValue);
    DivUnique(201 * maxValue, 2 * maxValue, 100);
    assert 2 * (100 * value) + maxValue == n;
  }

  /** The percentage never exceeds 100, and is 100 from the maximum on. */
  lemma PercentValueBounds(value: int, maxValue: int)
    requires 0 < maxValue
    ensures PercentValue(value, maxValue) <= 100
    ensures value >= maxValue ==> PercentValue(value, maxValue) == 100
    ensures value >= 0 ==> PercentValue(value, maxValue) >= 0
  {
    if value >= maxValue {
      assert PercentValue(value, maxValue) == PercentValue(maxValue, maxValue);
      PercentValueRounds(maxValue, maxValue);
      DivUnique(201 * maxValue, 2 * maxValue, 100);
    } else if value >= 0 {
      PercentValueRounds(value, maxValue);
    }
  }

  lemma PercentValueMonotonic(v1: int, v2: int, maxValue: int)
    requires 0 < maxValue && v1 <= v2
    ensures PercentValue(v1, maxValue) <= PercentValue(v2, maxValue)
  {
    TruncDivMonotonic(200 * Min(v1, maxValue) + maxValue, 200 * Min(v2, maxValue) + maxValue, 2 * maxValue);
  }

  /** The final text of a percentage meter. */
  lemma PercentFinalText(maxValue: int)
    requires maxValue > 0
    ensures PercentValue(maxValue, maxValue) == 100
    ensures PercentText(PercentValue(maxValue, maxValue)) == "100%"
  {
    PercentValueBounds(maxValue, maxValue);
    Width3Of100(PercentValue(maxValue, maxValue));
  }

  /** Different percentages print differently, so `Percent.Update` redraws exactly when the percentage changed. */
  lemma PercentTextInjective(p: int, q: int)
    ensures PercentText(p) == PercentText(q) <==> p == q
  {
    if PercentText(p) == PercentText(q) {
      assert Width3(p) == PercentText(p)[..|PercentText(p)| - 1];
      assert Width3(q) == PercentText(q)[..|PercentText(q)| - 1];
      Width3Injective(p, q);
    }
  }

  lemma PercentTextLength(p: int)
    requires -99 <= p <= 100
    ensures |PercentText(p)| == 4
  {
    Width3Length(p);
  }

  lemma PlainPercentText(p: int)
    ensures Plain(PercentText(p))
  {
    PlainWidth3(p);
    PlainAppend(Width3(p), "%");
  }

  /** The five backspaces of `Percent.Update` move back over exactly the text and its space. */
  lemma PercentRedrawInPlace(lines: seq<string>, pre: string, p: int, q: int)
    requires -99 <= p <= 100 && -99 <= q <= 100
    ensures Run(AtEnd(lines, pre + (PercentText(p) + " ")), Backspaces(5) + (PercentText(q) + " "))
         == AtEnd(lines, pre + (PercentText(q) + " "))
  {
    var b, c := PercentText(p) + " ", PercentText(q) + " ";
    assert |b| == 5 && |c| == 5 by {
      PercentTextLength(p);
      PercentTextLength(q);
    }
    assert Plain(c) by {
      PlainPercentText(q);
      PlainAppend(PercentText(q), " ");
    }
    RedrawSameWidth(lines, pre, b, c);
  }


  // ---------------------------------------------------------------------------
  // The spinner

  /** The frames cycle through the four glyphs and consecutive frames differ. */
  lemma SpinnerCycle(value: int)
    requires 0 <= value < 4
    ensures 0 <= SpinNext(value) < 4 && SPIN[SpinNext(value)] != SPIN[value]
    ensures SpinNext(SpinNext(SpinNext(SpinNext(value)))) == value
  {
    assert SPIN == ['|', '/', '-', '\\'];
  }

  /** The two backspaces of `Spinner.Update` move back over exactly the glyph and its space. */
  lemma SpinnerRedrawInPlace(lines: seq<string>, pre: string, g: char, h: char)
    requires !IsControl(h)
    ensures Run(AtEnd(lines, pre + ([g] + " ")), Backspaces(2) + ([h] + " "))
         == AtEnd(lines, pre + ([h] + " "))
  {
    assert Plain([h] + " ");
    RedrawSameWidth(lines, pre, [g] + " ", [h] + " ");
  }

  /** `Spinner.Finish` blanks the glyph and its space and ends the line after them. */
  lemma SpinnerFinishBlanks(lines: seq<string>, pre: string, g: char)
    ensures Run(AtEnd(lines, pre + ([g] + " ")), SpinnerEraseText() + "\n")
         == Screen(lines + [pre + "  "], [], 0)
  {
    var s0 := AtEnd(lines, pre + ([g] + " "));
    assert Run(s0, SpinnerEraseText()) == Screen(lines, pre + "  ", |pre|) by {
      Blot(lines, pre, [g] + " ", []);
      assert pre + ([g] + " ") + [] == pre + ([g] + " ");
      assert Spaces(2) == "  ";
      assert pre + Spaces(2) + [] == pre + "  ";
    }
    RunAppend(s0, SpinnerEraseText(), "\n");
    RunNewline(Screen(lines, pre + "  ", |pre|));
  }

  // ---------------------------------------------------------------------------
  // Finishing a bar within a quarter second of `Show`

  /**
   * `Bar.Finish` as written, called before the rate limiter allows a redraw,
   * prints only the newline: a partly filled bar stays on the finished line.
   */
  lemma BarFinishAsWrittenKeepsPartialBar(lines: seq<string>, pre: string, units: int, width: int)
    requires 0 <= units < width
    ensures BarText(units, width) != BarText(width, width)
    ensures Run(AtEnd(lines, pre + (BarText(units, width) + " ")), "\n")
         == Screen(lines + [pre + (BarText(units, width) + " ")], [], 0)
  {
    assert BarText(units, width)[width] == ' ';
    RunNewline(AtEnd(lines, pre + (BarText(units, width) + " ")));
  }

  /** `FinishCorrected` ends the line with the full bar, whatever bar was shown. */
  lemma BarFinishCorrectedShowsFull(lines: seq<string>, pre: string, units: int, width: int)
    requires 0 <= units <= width
    ensures var shown, full := BarText(units, width), BarText(width, width);
      Run(AtEnd(lines, pre + (shown + " ")),
          (if shown != full then Backspaces(width + 3) + (full + " ") else []) + "\n")
      == Screen(lines + [pre + (BarText(width, width) + " ")], [], 0)
  {
    var shown, full := BarText(units, width), BarText(width, width);
    var redraw := if shown != full then Backspaces(width + 3) + (full + " ") else [];
    var s0 := AtEnd(lines, pre + (shown + " "));
    assert Run(s0, redraw) == AtEnd(lines, pre + (full + " ")) by {
      if shown != full {
        BarRedrawInPlace(lines, pre, units, width, width);
      }
    }
    RunAppend(s0, redraw, "\n");
    RunNewline(AtEnd(lines, pre + (full + " ")));
  }

  /**
   * `Percent.Finish` as written, called before the rate limiter allows a
   * redraw, prints only the newline: a percentage below 100 stays on the
   * finished line.
   */
  lemma PercentFinishAsWrittenKeepsPercent(lines: seq<string>, pre: string, p: int)
    requires 0 <= p < 100
    ensures PercentText(p) != "100%"
    ensures Run(AtEnd(lines, pre + (PercentText(p) + " ")), "\n")
         == Screen(lines + [pre + (PercentText(p) + " ")], [], 0)
  {
    assert PercentText(p)[0] == ' ' by {
      Width3Below100(p);
    }
    assert "100%"[0] == '1';
    RunNewline(AtEnd(lines, pre + (PercentText(p) + " ")));
  }

  /** `FinishCorrected` ends the line with 100%, whatever percentage was shown. */
  lemma PercentFinishCorrectedShows100(lines: seq<string>, pre: string, p: int)
    requires -99 <= p <= 100
    ensures var shown := PercentText(p);
      Run(AtEnd(lines, pre + (shown + " ")), (if shown != "100%" then Backspaces(5) + "100% " else []) + "\n")
      == Screen(lines + [pre + "100% "], [], 0)
  {
    var shown := PercentText(p);
    var redraw := if shown != "100%" then Backspaces(5) + "100% " else [];
    var s0 := AtEnd(lines, pre + (shown + " "));
    var s1 := AtEnd(lines, pre + "100% ");
    assert Run(s0, redraw) == s1 by {
      FullPercentWord();
      if shown != "100%" {
        PercentRedrawToFull(lines, pre, p);
      }
    }
    RunAppend(s0, redraw, "\n");
    RunNewline(s1);
  }

  /** The redraw of "100%" over any percentage in range. */
  lemma PercentRedrawToFull(lines: seq<string>, pre: string, p: int)
    requires -99 <= p <= 100
    ensures Run(AtEnd(lines, pre + (PercentText(p) + " ")), Backspaces(5) + "100% ")
         == AtEnd(lines, pre + "100% ")
  {
    assert |PercentText(p) + " "| == 5 by {
      PercentTextLength(p);
    }
    assert Plain("100% ") by {
      PlainFullPercent();
    }
    RedrawSameWidth(lines, pre, PercentText(p) + " ", "100% ");
  }

}
