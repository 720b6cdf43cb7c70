/**
 * The C implementation (progress.c, with the struct of progress.h): one
 * `ProgressMeter` record whose `type` selects bar, percentage or spinner.
 * The line buffer is a 64-cell character array holding a NUL-terminated
 * string; `clock()` is the `now` parameter (clock ticks) and standard output
 * is `out`, which every operation only appends to.
 */
module CProgress {
  import opened Format
  import opened Terminal

  const LINEBUF: nat := 64
  const BAR_WIDTH: nat := 20
  const FPS_RATE: nat := 4
  /** The value POSIX fixes for `CLOCKS_PER_SEC`. */
  const CLOCKS_PER_SEC: nat := 1_000_000
  const CLOCKS_PER_MSEC: nat := CLOCKS_PER_SEC / 1000
  /** The rate limiter's threshold, `CLOCKS_PER_MSEC / FPS_RATE` clock ticks. */
  const REFRESH_TICKS: nat := CLOCKS_PER_MSEC / FPS_RATE
  const SPIN: string := "|/-\\"
  const NUL: char := '\U{0000}'
  const INT_MAX: int := 0x7fff_ffff

  datatype MeterType = Bar | Percent | Spinner

  /** A `char *` that may be NULL. */
  datatype Option<T> = None | Some(value: T)

  predicate NoNul(s: string) { forall i :: 0 <= i < |s| ==> s[i] != NUL }

  predicate NoNulOpt(o: Option<string>) { o.Some? ==> NoNul(o.value) }

  /** The C string held by a character buffer: everything before the first NUL. */
  function CStr(s: seq<char>): (r: string)
    ensures |r| <= |s| && r == s[..|r|] && NoNul(r)
    ensures |r| < |s| ==> s[|r|] == NUL
    decreases |s|
  {
    if s == [] || s[0] == NUL then [] else [s[0]] + CStr(s[1..])
  }

  /** A buffer holding `w` followed by a NUL holds the C string `w`. */
  lemma CStrOf(s: seq<char>, w: string)
    requires |w| < |s| && s[..|w|] == w && s[|w|] == NUL && NoNul(w)
    ensures CStr(s) == w
    decreases |w|
  {
    if w != [] {
      assert s[0] == w[0] && s[0] != NUL;
      assert s[1..][..|w| - 1] == w[1..];
      CStrOf(s[1..], w[1..]);
    }
  }

  /** The C string of a buffer depends only on the cells up to its NUL. */
  lemma CStrSamePrefix(s: seq<char>, t: seq<char>, k: nat)
    requires k <= |s| && k <= |t| && s[..k] == t[..k] && |CStr(s)| < k
    ensures CStr(t) == CStr(s)
  {
    var w := CStr(s);
    assert t[..|w|] == s[..|w|] by {
      assert t[..|w|] == t[..k][..|w|] && s[..|w|] == s[..k][..|w|];
    }
    assert t[|w|] == t[..k][|w|] == s[..k][|w|] == s[|w|];
    CStrOf(t, w);
  }

  function WordOpt(o: Option<string>): string
  {
    match o
    case None => []
    case Some(s) => s + " "
  }

  // ---------------------------------------------------------------------------
  // What the meter prints

  /** A trailing label that is absent or ASCII: `strlen` then counts its characters. */
  predicate AsciiOpt(o: Option<string>) { o.Some? ==> Ascii(o.value) }

  /**
   * What `back_rlabel` prints: one backspace per byte of "rlabel ", the label
   * taken to be UTF-8 text.
   */
  function BackText(rlabel: Option<string>): string
  {
    match rlabel
    case None => []
    case Some(r) => Backspaces(Utf8Len(r) + 1)
  }

  /** What `erase_rlabel` prints. */
  function EraseText(rlabel: Option<string>): string
  {
    match rlabel
    case None => []
    case Some(r) => BackText(rlabel) + Spaces(Utf8Len(r) + 1) + BackText(rlabel)
  }

  /** The line `progress_show` prints around the rendered `frame`. */
  function ShowText(labelText: Option<string>, frame: string, rlabel: Option<string>): string
  {
    WordOpt(labelText) + (frame + " ") + WordOpt(rlabel)
  }

  /** What a `progress_update_*` prints to replace the shown frame by `frame`. */
  function RedrawText(rlabel: Option<string>, width: nat, frame: string): string
  {
    BackText(rlabel) + (Backspaces(width) + (frame + " ")) + WordOpt(rlabel)
  }

  /** How many cells each update backs over before printing the new frame. */
  function RedrawWidth(kind: MeterType): nat
  {
    match kind
    case Bar => BAR_WIDTH + 3
    case Percent => 5
    case Spinner => 2
  }

  /** What `progress_finish_bar` prints: back over the bar, blank it, back again. */
  function FinishBarText(): string
  {
    Backspaces(BAR_WIDTH + 3) + Spaces(BAR_WIDTH + 3) + Backspaces(BAR_WIDTH + 3)
  }

  /** What `progress_finish_spinner` prints. */
  function FinishSpinnerText(): string
  {
    [BS, BS, ' ', ' ', BS, BS]
  }

  /** What `progress_finish` prints last. */
  function FinishTail(rlabel: Option<string>): string
  {
    match rlabel
    case None => "\n"
    case Some(r) => r + "\n"
  }

  /**
   * The rate limiter of `progress_update`: the clock has moved forward by at
   * least `REFRESH_TICKS` since `timestamp`.
   */
  predicate RefreshDue(now: int, timestamp: int)
  {
    now > timestamp && now - timestamp >= REFRESH_TICKS
  }

  // ---------------------------------------------------------------------------
  // The three renderings

  /** `units` of `progress_make_bar`: `(int)(value * (20.0 / max_value) + 0.5)` with the value clamped. */
  function BarUnits(value: int, maxValue: int): int
    requires maxValue > 0
  {
    TruncDiv(2 * BAR_WIDTH * Min(value, maxValue) + maxValue, 2 * maxValue)
  }

  /** The bar `progress_make_bar` writes: cell `i` (1 to 20) is '=' iff `i <= units`. */
  function BarText(units: int): (r: string)
    ensures |r| == BAR_WIDTH + 2
  {
    "|" + seq(BAR_WIDTH, i => if i + 1 <= units then '=' else ' ') + "|"
  }

  /** The clamped, rounded percentage of `progress_make_percent`. */
  function CPercent(value: int, maxValue: int): int
    requires maxValue > 0
  {
    var percent := TruncDiv(200 * Min(value, maxValue) + maxValue, 2 * maxValue);
    if percent > 100 then 100 else percent
  }

  /** `"%3d%%"` of the percentage. */
  function PercentText(p: int): string { Width3(p) + "%" }

  /** `value++`, back to 0 at 4: the frame `progress_make_spinner` advances to. */
  function SpinNext(value: int): int
  {
    if value + 1 >= 4 then 0 else value + 1
  }

  /** The line a meter of `kind` renders for `value` (the advanced frame, for a spinner). */
  function FrameOf(kind: MeterType, value: int, maxValue: int): string
    requires kind != Spinner ==> maxValue > 0
    requires kind == Spinner ==> 0 <= value < 4
  {
    match kind
    case Bar => BarText(BarUnits(value, maxValue))
    case Percent => PercentText(CPercent(value, maxValue))
    case Spinner => [SPIN[value]]
  }

  /** The value after rendering: a spinner advances, the others keep it. */
  function Advance(kind: MeterType, value: int): int
  {
    if kind == Spinner then SpinNext(value) else value
  }

  /** What `progress_finish_*` prints for `kind`, given the frame on screen. */
  function FinishKindText(kind: MeterType, rlabel: Option<string>, shown: string, maxValue: int): string
    requires maxValue > 0
  {
    match kind
    case Bar => FinishBarText()
    case Percent => FinishRedraw(rlabel, shown, PercentText(CPercent(maxValue, maxValue)))
    case Spinner => FinishSpinnerText()
  }

  /** The final `progress_update_percent`: nothing if `frame` is already shown, else the redraw. */
  function FinishRedraw(rlabel: Option<string>, shown: string, frame: string): string
  {
    if shown == frame then [] else RedrawText(rlabel, 5, frame)
  }

  class ProgressMeter {
    var kind: MeterType
    var labelText: Option<string>
    var rlabel: Option<string>
    var value: I32
    var maxValue: I32
    var timestamp: int
    const line: array<char>
    /** Everything printed so far. */
    var out: string

    /**
     * The buffer holds a C string (a NUL before its last cell), the labels
     * are C strings, and a spinner's `value++` neither overflows nor indexes
     * before `SPIN`.
     */
    ghost predicate Valid()
      reads this, line
    {
      line.Length == LINEBUF && |CStr(line[..])| < LINEBUF - 1
      && NoNulOpt(labelText) && NoNulOpt(rlabel)
      && (kind == Spinner ==> -1 <= value < INT_MAX)
    }

    /** `progress_init`: the record zeroed, then `type` set. */
    constructor (t: MeterType)
      ensures Valid() && fresh(line)
      ensures kind == t && labelText == None && rlabel == None
      ensures value == 0 && maxValue == 0 && timestamp == 0 && out == []
      ensures line[..] == seq(LINEBUF, _ => NUL)
    {
      kind := t;
      labelText, rlabel := None, None;
      value, maxValue := 0, 0;
      timestamp := 0;
      line := new char[LINEBUF](_ => NUL);
      out := [];
      new;
      assert line[..][0] == NUL;
    }

    method BackRlabel()
      modifies this`out
      ensures out == old(out) + BackText(rlabel)
    {
      if rlabel == None {
        return;
      }
      var len := Utf8Len(rlabel.value) + 1;
      for i := 0 to len
        invariant out == old(out) + Backspaces(i)
      {
        RepeatAdd(BS, i, 1);
        out := out + [BS];
      }
    }

    method EraseRlabel()
      modifies this`out
      ensures out == old(out) + EraseText(rlabel)
    {
      if rlabel == None {
        return;
      }
      BackRlabel();
      out := out + Spaces(Utf8Len(rlabel.value) + 1);
      BackRlabel();
    }

    /** `snprintf(m->line, PROGRESS_LINEBUF, ...)`: at most 63 characters and a NUL. */
    method WriteLine(text: string)
      requires line.Length == LINEBUF && NoNul(text)
      modifies line
      ensures var n := Min(|text|, LINEBUF - 1);
        line[..n] == text[..n] && line[n] == NUL && line[n + 1..] == old(line[n + 1..])
      ensures CStr(line[..]) == text[..Min(|text|, LINEBUF - 1)]
    {
      var n := Min(|text|, LINEBUF - 1);
      for i := 0 to n
        invariant forall j :: 0 <= j < i ==> line[j] == text[j]
        invariant forall j :: i <= j < LINEBUF ==> line[j] == old(line[j])
      {
        line[i] := text[i];
      }
      line[n] := NUL;
      assert line[..n] == text[..n];
      CStrOf(line[..], text[..n]);
    }

    method MakeBar()
      requires line.Length == LINEBUF && maxValue > 0
      modifies line
      ensures line[..BAR_WIDTH + 2] == BarText(BarUnits(value, maxValue))
      ensures line[BAR_WIDTH + 2] == NUL && line[BAR_WIDTH + 3..] == old(line[BAR_WIDTH + 3..])
      ensures CStr(line[..]) == BarText(BarUnits(value, maxValue))
    {
      var v := value;
      if value > maxValue {
        v := maxValue;
      }
      var units := TruncDiv(2 * BAR_WIDTH * v + maxValue, 2 * maxValue);
      line[0] := '|';
      for i := 1 to BAR_WIDTH + 1
        invariant line[0] == '|'
        invariant forall j :: 1 <= j < i ==> line[j] == if j <= units then '=' else ' '
        invariant forall j :: BAR_WIDTH + 1 <= j < LINEBUF ==> line[j] == old(line[j])
      {
        if i <= units {
          line[i] := '=';
        } else {
          line[i] := ' ';
        }
      }
      line[BAR_WIDTH + 1] := '|';
      line[BAR_WIDTH + 2] := NUL;
      var bar := BarText(units);
      forall j | 0 <= j < BAR_WIDTH + 2
        ensures line[j] == bar[j]
      {
        if 1 <= j <= BAR_WIDTH {
          assert bar[j] == seq(BAR_WIDTH, i => if i + 1 <= units then '=' else ' ')[j - 1];
        }
      }
      assert line[..BAR_WIDTH + 2] == bar;
      BarTextNoNul(units);
      CStrOf(line[..], bar);
    }

    method ShowBar()
      requires line.Length == LINEBUF && maxValue > 0
      modifies this`out, line
      ensures CStr(line[..]) == BarText(BarUnits(value, maxValue))
      ensures out == old(out) + (CStr(line[..]) + " ")
    {
      MakeBar();
      out := out + (CStr(line[..]) + " ");
    }

    method MakePercent()
      requires line.Length == LINEBUF && maxValue > 0
      modifies line
      ensures CStr(line[..]) == PercentText(CPercent(value, maxValue))
      ensures |CStr(line[..])| < LINEBUF - 1
    {
      var percent := CPercent(value, maxValue);
      var text := Width3(percent) + "%";
      PercentTextFits(value, maxValue);
      WriteLine(text);
      assert text[..Min(|text|, LINEBUF - 1)] == text;
    }

    method ShowPercent()
      requires line.Length == LINEBUF && maxValue > 0
      modifies this`out, line
      ensures CStr(line[..]) == PercentText(CPercent(value, maxValue))
      ensures |CStr(line[..])| < LINEBUF - 1
      ensures out == old(out) + (CStr(line[..]) + " ")
    {
      MakePercent();
      out := out + (CStr(line[..]) + " ");
    }

    method MakeSpinner()
      requires line.Length == LINEBUF && -1 <= value < INT_MAX
      modifies this`value, line
      ensures value == SpinNext(old(value)) && 0 <= value < 4
      ensures CStr(line[..]) == [SPIN[value]]
    {
      value := value + 1;
      if value >= 4 {
        value := 0;
      }
      WriteLine([SPIN[value]]);
    }

    method ShowSpinner()
      requires line.Length == LINEBUF && -1 <= value < INT_MAX
      modifies this`value, this`out, line
      ensures value == SpinNext(old(value)) && 0 <= value < 4
      ensures CStr(line[..]) == [SPIN[value]]
      ensures out == old(out) + (CStr(line[..]) + " ")
    {
      MakeSpinner();
      out := out + (CStr(line[..]) + " ");
    }

    /**
     * The printing half of each `progress_update_*`: back over the trailing
     * label and `width` cells of frame, print the current line and the
     * trailing label again.
     */
    method PrintRedraw(width: nat)
      modifies this`out
      ensures out == old(out) + RedrawText(rlabel, width, CStr(line[..]))
    {
      ghost var o := out;
      var text := CStr(line[..]);
      BackRlabel();
      out := out + (Backspaces(width) + (text + " "));
      if rlabel != None {
        out := out + (rlabel.value + " ");
      }
      AppendAssoc4(o, BackText(rlabel), Backspaces(width) + (text + " "), WordOpt(rlabel));
    }

    /** The bounded copy of the line an update compares against: the same C string. */
    method SaveLine() returns (saved: string)
      requires line.Length == LINEBUF && |CStr(line[..])| < LINEBUF - 1
      ensures saved == CStr(line[..])
    {
      var copy := line[..LINEBUF - 1] + [NUL];
      CStrSamePrefix(line[..], copy, LINEBUF - 1);
      saved := CStr(copy);
    }

    /** `strcmp` of the saved copy with the regenerated line, and the redraw when they differ. */
    method RedrawIfChanged(saved: string, width: nat)
      modifies this`out
      ensures out == old(out) + (if saved == CStr(line[..]) then [] else RedrawText(rlabel, width, CStr(line[..])))
    {
      var shown := CStr(line[..]);
      if saved == shown {
        return;
      }
      PrintRedraw(width);
    }

    /** Prints the redraw only when the regenerated line differs from the saved copy. */
    method UpdateBar()
      requires Valid() && maxValue > 0
      modifies this`out, line
      ensures Valid() && CStr(line[..]) == BarText(BarUnits(value, maxValue))
      ensures out == old(out) + (if CStr(old(line[..])) == CStr(line[..]) then []
                                 else RedrawText(rlabel, BAR_WIDTH + 3, CStr(line[..])))
    {
      var saved := SaveLine();
      MakeBar();
      RedrawIfChanged(saved, BAR_WIDTH + 3);
    }

    method UpdatePercent()
      requires Valid() && maxValue > 0
      modifies this`out, line
      ensures Valid() && CStr(line[..]) == PercentText(CPercent(value, maxValue))
      ensures out == old(out) + (if CStr(old(line[..])) == CStr(line[..]) then []
                                 else RedrawText(rlabel, 5, CStr(line[..])))
    {
      var saved := SaveLine();
      MakePercent();
      RedrawIfChanged(saved, 5);
    }

    method UpdateSpinner()
      requires Valid() && kind == Spinner
      modifies this`value, this`out, line
      ensures Valid() && value == SpinNext(old(value)) && 0 <= value < 4
      ensures CStr(line[..]) == [SPIN[value]]
      ensures out == old(out) + (if CStr(old(line[..])) == CStr(line[..]) then []
                                 else RedrawText(rlabel, 2, CStr(line[..])))
    {
      var saved := SaveLine();
      MakeSpinner();
      RedrawIfChanged(saved, 2);
    }

    method FinishBar()
      modifies this`out
      ensures out == old(out) + FinishBarText()
    {
      out := out + FinishBarText();
    }

    /** Shows 100%: the value is set to the maximum and the percentage redrawn. */
    method FinishPercent()
      requires Valid() && kind == Percent && maxValue > 0
      modifies this`value, this`out, line
      ensures Valid() && value == maxValue
      ensures CStr(line[..]) == PercentText(CPercent(maxValue, maxValue))
      ensures out == old(out) + FinishKindText(Percent, rlabel, CStr(old(line[..])), maxValue)
    {
      value := maxValue;
      UpdatePercent();
    }

    method FinishSpinner()
      modifies this`out
      ensures out == old(out) + FinishSpinnerText()
    {
      out := out + FinishSpinnerText();
    }

    method Show(now: int)
      requires Valid() && (kind != Spinner ==> maxValue > 0)
      modifies this`value, this`timestamp, this`out, line
      ensures Valid() && timestamp == now
      ensures value == Advance(kind, old(value))
      ensures CStr(line[..]) == FrameOf(kind, value, maxValue)
      ensures out == old(out) + ShowText(labelText, FrameOf(kind, value, maxValue), rlabel)
    {
      PrintWord(labelText);
      ShowFrame();
      timestamp := now;
      PrintWord(rlabel);
      AppendAssoc4(old(out), WordOpt(labelText), FrameOf(kind, value, maxValue) + " ", WordOpt(rlabel));
    }

    /** A label and its separating space, if there is a label. */
    method PrintWord(o: Option<string>)
      modifies this`out
      ensures out == old(out) + WordOpt(o)
    {
      if o != None {
        out := out + (o.value + " ");
      }
    }

    /** The `progress_show_*` call for the meter's type. */
    method ShowFrame()
      requires Valid() && (kind != Spinner ==> maxValue > 0)
      modifies this`value, this`out, line
      ensures Valid() && value == Advance(kind, old(value))
      ensures CStr(line[..]) == FrameOf(kind, value, maxValue)
      ensures out == old(out) + (FrameOf(kind, value, maxValue) + " ")
    {
      match kind {
        case Bar => ShowBar();
        case Percent => ShowPercent();
        case Spinner => ShowSpinner();
      }
      assert |CStr(line[..])| < LINEBUF - 1;
    }

    /**
     * `progress_update`: stores the value (not for a spinner); when the rate
     * limiter allows it, refreshes the timestamp and redraws.
     */
    method Update(v: I32, now: int)
      requires Valid() && (kind != Spinner ==> maxValue > 0)
      modifies this`value, this`timestamp, this`out, line
      ensures Valid()
      ensures timestamp == if RefreshDue(now, old(timestamp)) then now else old(timestamp)
      ensures var stored := if kind == Spinner then old(value) else v;
        if !RefreshDue(now, old(timestamp)) then
          value == stored && out == old(out) && line[..] == old(line[..])
        else
          value == Advance(kind, stored) && (kind == Spinner ==> 0 <= value < 4)
          && CStr(line[..]) == FrameOf(kind, value, maxValue)
          && out == old(out) + (if CStr(old(line[..])) == FrameOf(kind, value, maxValue) then []
                                else RedrawText(rlabel, RedrawWidth(kind), FrameOf(kind, value, maxValue)))
    {
      if kind != Spinner {
        value := v;
      }
      if now <= timestamp {
        return;
      }
      var diff := now - timestamp;
      if diff < REFRESH_TICKS {
        return;
      }
      timestamp := now;
      match kind {
        case Bar => UpdateBar();
        case Percent => UpdatePercent();
        case Spinner => UpdateSpinner();
      }
    }

    /** `progress_finish` as written: the trailing label is erased before the final redraw. */
    method Finish()
      requires Valid() && (kind != Spinner ==> maxValue > 0)
      modifies this`value, this`out, line
      ensures Valid() && CStr(line[..]) == []
      ensures value == if kind == Percent then maxValue else old(value)
      ensures out == old(out) + EraseText(rlabel)
        + (if kind == Spinner then FinishSpinnerText() else FinishKindText(kind, rlabel, CStr(old(line[..])), maxValue))
        + FinishTail(rlabel)
    {
      EraseRlabel();
      FinishFrame();
      PrintTail();
      ClearLine();
    }

    /** `progress_finish` with the percentage redrawn before the trailing label is erased. */
    method FinishCorrected()
      requires Valid() && (kind != Spinner ==> maxValue > 0)
      modifies this`value, this`out, line
      ensures Valid() && CStr(line[..]) == []
      ensures value == if kind == Percent then maxValue else old(value)
      ensures kind == Percent ==>
        out == old(out) + FinishKindText(kind, rlabel, CStr(old(line[..])), maxValue)
               + EraseText(rlabel) + FinishTail(rlabel)
      ensures kind != Percent ==>
        out == old(out) + EraseText(rlabel)
               + (if kind == Spinner then FinishSpinnerText() else FinishBarText()) + FinishTail(rlabel)
    {
      if kind == Percent {
        FinishFrame();
        EraseRlabel();
      } else {
        EraseRlabel();
        FinishFrame();
      }
      PrintTail();
      ClearLine();
    }

    /** The `progress_finish_*` call for the meter's type. */
    method FinishFrame()
      requires Valid() && (kind != Spinner ==> maxValue > 0)
      modifies this`value, this`out, line
      ensures Valid()
      ensures value == if kind == Percent then maxValue else old(value)
      ensures out == old(out)
        + (if kind == Spinner then FinishSpinnerText() else FinishKindText(kind, rlabel, CStr(old(line[..])), maxValue))
    {
      ghost var shown := CStr(line[..]);
      match kind {
        case Bar =>
          FinishBar();
          assert FinishKindText(kind, rlabel, shown, maxValue) == FinishBarText();
        case Percent =>
          FinishPercent();
        case Spinner =>
          FinishSpinner();
      }
      assert out == old(out) + (if kind == Spinner then FinishSpinnerText() else FinishKindText(kind, rlabel, shown, maxValue));
    }

    /** What `progress_finish` prints last: the trailing label, if any, and the newline. */
    method PrintTail()
      modifies this`out
      ensures out == old(out) + FinishTail(rlabel)
    {
      if rlabel != None {
        out := out + (rlabel.value + "\n");
      } else {
        out := out + "\n";
      }
    }

    /** `meter->line[0] = 0`: the line buffer is cleared. */
    method ClearLine()
      requires Valid()
      modifies line
      ensures Valid() && CStr(line[..]) == []
    {
      line[0] := NUL;
      assert line[..][0] == NUL;
    }
  }

  // ---------------------------------------------------------------------------
  // Properties of the renderings

  lemma BarTextNoNul(units: int)
    ensures NoNul(BarText(units)) && Plain(BarText(units))
  {
    var r := BarText(units);
    forall i | 0 <= i < |r| ensures r[i] != NUL && !IsControl(r[i]) {
      if 1 <= i <= BAR_WIDTH {
        assert r[i] == seq(BAR_WIDTH, j => if j + 1 <= units then '=' else ' ')[i - 1];
      }
    }
  }

  function Clamp(units: int): (c: nat)
    ensures c <= BAR_WIDTH
  {
    if units < 0 then 0 else if units > BAR_WIDTH then BAR_WIDTH else units
  }

  /**
   * The bar is its two ends around `Clamp(units)` '=' cells followed by
   * blanks: never more than 20 '=' cells.
   */
  lemma BarTextFilled(units: int)
    ensures BarText(units) == "|" + Repeat('=', Clamp(units)) + Repeat(' ', BAR_WIDTH - Clamp(units)) + "|"
    ensures multiset(BarText(units))['='] == Clamp(units) <= BAR_WIDTH
  {
    var c := Clamp(units);
    var cells := seq(BAR_WIDTH, i => if i + 1 <= units then '=' else ' ');
    var fill := Repeat('=', c) + Repeat(' ', BAR_WIDTH - c);
    forall i | 0 <= i < BAR_WIDTH ensures cells[i] == fill[i] {
      if i < c { assert fill[i] == Repeat('=', c)[i]; } else { assert fill[i] == Repeat(' ', BAR_WIDTH - c)[i - c]; }
    }
    assert cells == fill;
    assert "|" + cells + "|" == "|" + Repeat('=', c) + Repeat(' ', BAR_WIDTH - c) + "|";
    RepeatCount('=', c, '=');
    RepeatCount(' ', BAR_WIDTH - c, '=');
    assert multiset("|")['='] == 0;
  }

  lemma {:induction false} RepeatCount(c: char, n: nat, x: char)
    ensures multiset(Repeat(c, n))[x] == if c == x then n else 0
  {
    if n > 0 {
      RepeatCount(c, n - 1, x);
      assert Repeat(c, n) == [c] + Repeat(c, n - 1);
    }
  }

  /** For a value in range, `units` is `20 * value / max_value` rounded half up. */
  lemma BarUnitsRounds(value: int, maxValue: int)
    requires 0 < maxValue && 0 <= value <= maxValue
    ensures BarUnits(value, maxValue) == RoundHalfUp(BAR_WIDTH * value, maxValue)
    ensures 0 <= BarUnits(value, maxValue) <= BAR_WIDTH
  {
    var n := 2 * BAR_WIDTH * value + maxValue;
    TruncDivNonNegative(n, 2 * maxValue);
    DivMonotonic(n, 41 * maxValue, 2 * maxValue);
    DivUnique(41 * maxValue, 2 * maxValue, BAR_WIDTH);
    assert 2 * (BAR_WIDTH * value) + maxValue == n;
  }

  /** Any value at or above the maximum fills all 20 cells. */
  lemma BarFullWhenDone(value: int, maxValue: int)
    requires 0 < maxValue <= value
    ensures BarUnits(value, maxValue) == BAR_WIDTH
    ensures BarText(BarUnits(value, maxValue)) == "|" + Repeat('=', BAR_WIDTH) + "|"
  {
    assert BarUnits(value, maxValue) == BarUnits(maxValue, maxValue);
    BarUnitsOfMax(maxValue);
    BarTextFilled(BAR_WIDTH);
    assert Repeat(' ', 0) == [];
    assert "|" + Repeat('=', BAR_WIDTH) + [] == "|" + Repeat('=', BAR_WIDTH);
  }

  lemma BarUnitsOfMax(maxValue: int)
    requires 0 < maxValue
    ensures BarUnits(maxValue, maxValue) == BAR_WIDTH
  {
    var n := 2 * BAR_WIDTH * maxValue + maxValue;
    assert n == 41 * maxValue;
    TruncDivNonNegative(n, 2 * maxValue);
    DivUnique(n, 2 * maxValue, BAR_WIDTH);
  }

  /** More progress never shows fewer '=' cells, and never more than 20. */
  lemma BarUnitsMonotonic(v1: int, v2: int, maxValue: int)
    requires 0 < maxValue && v1 <= v2
    ensures BarUnits(v1, maxValue) <= BarUnits(v2, maxValue) <= BAR_WIDTH
  {
    TruncDivMonotonic(2 * BAR_WIDTH * Min(v1, maxValue) + maxValue, 2 * BAR_WIDTH * Min(v2, maxValue) + maxValue, 2 * maxValue);
    TruncDivMonotonic(2 * BAR_WIDTH * Min(v2, maxValue) + maxValue, 41 * maxValue, 2 * maxValue);
    DivUnique(41 * maxValue, 2 * maxValue, BAR_WIDTH);
  }

  /** For a value in range the percentage is `100 * value / max_value` rounded half up. */
  lemma CPercentRounds(value: int, maxValue: int)
    requires 0 < maxValue && 0 <= value <= maxValue
    ensures CPercent(value, maxValue) == RoundHalfUp(100 * value, maxValue)
    ensures 0 <= CPercent(value, maxValue) <= 100
  {
    var n := 200 * value + maxValue;
    TruncDivNonNegative(n, 2 * maxValue);
    DivMonotonic(n, 201 * maxValue, 2 * maxValue);
    DivUnique(201 * maxValue, 2 * maxValue, 100);
    assert 2 * (100 * value) + maxValue == n;
  }

  /**
   * Only a negative value can take the `(int)` casts of `progress_make_bar`
   * and `progress_make_percent` out of the range of `int`, where C leaves the
   * result undefined: from 0 up, the bar's units stay within 0 to 20 and the
   * percentage before its clamp within 0 to 100.
   */
  lemma CastsInRange(value: int, maxValue: int)
    requires 0 < maxValue && 0 <= value
    ensures 0 <= BarUnits(value, maxValue) <= BAR_WIDTH
    ensures 0 <= TruncDiv(200 * Min(value, maxValue) + maxValue, 2 * maxValue) <= 100
  {
    var v := Min(value, maxValue);
    BarUnitsRounds(v, maxValue);
    assert BarUnits(v, maxValue) == BarUnits(value, maxValue);
    var n := 200 * v + maxValue;
    TruncDivNonNegative(n, 2 * maxValue);
    DivMonotonic(n, 201 * maxValue, 2 * maxValue);
    DivUnique(201 * maxValue, 2 * maxValue, 100);
  }

  /** 100 times `INT_MIN` of 1: the exact value is below `INT_MIN`, where the C cast is undefined. */
  lemma CastOutOfRange()
    ensures TruncDiv(200 * Min(-0x8000_0000, 1) + 1, 2 * 1) < -0x8000_0000
  {
    TruncDivBounds(200 * -0x8000_0000 + 1, 2);
  }

  /** The percentage never exceeds 100 and is exactly 100 once the maximum is reached. */
  lemma CPercentBounds(value: int, maxValue: int)
    requires 0 < maxValue
    ensures CPercent(value, maxValue) <= 100
    ensures value >= maxValue ==> CPercent(value, maxValue) == 100
    ensures value >= 0 ==> CPercent(value, maxValue) >= 0
  {
    if value >= maxValue {
      CPercentRounds(maxValue, maxValue);
      DivUnique(201 * maxValue, 2 * maxValue, 100);
    } else if value >= 0 {
      CPercentRounds(value, maxValue);
    }
  }

  /** `Abs(TruncDiv(n, d)) <= Abs(n)` for a divisor of magnitude at least one. */
  lemma TruncDivSmaller(n: int, d: int)
    requires d > 0
    ensures Abs(TruncDiv(n, d)) <= Abs(n)
  {
    var q := TruncDiv(n, d);
    TruncDivBounds(n, d);
    if q != 0 {
      MulMono(1, d, Abs(q));
    }
  }

  /** `"%3d%%"` of any percentage a 32-bit value yields fits the 64-byte buffer. */
  lemma PercentTextFits(value: I32, maxValue: I32)
    requires maxValue > 0
    ensures |PercentText(CPercent(value, maxValue))| < LINEBUF - 1
    ensures NoNul(PercentText(CPercent(value, maxValue)))
  {
    var n := 200 * Min(value, maxValue) + maxValue;
    TruncDivSmaller(n, 2 * maxValue);
    var p := CPercent(value, maxValue);
    assert Abs(p) < 1_000_000_000_000;
    NatToStringShort(Abs(p));
    PlainWidth3(p);
    Width3Digits(p);
  }

  /** Decimal digits of a number below 10^12: at most 12 of them. */
  lemma {:induction false} NatToStringShort(n: nat)
    requires n < 1_000_000_000_000
    ensures |NatToString(n)| <= 12
  {
    NatToStringBound(n, 12);
  }

  function Pow10(k: nat): nat { if k == 0 then 1 else 10 * Pow10(k - 1) }

  lemma {:induction false} NatToStringBound(n: nat, k: nat)
    requires k >= 1 && n < Pow10(k)
    ensures |NatToString(n)| <= k
    decreases k
  {
    if n >= 10 {
      assert Pow10(1) == 10;
      NatToStringBound(n / 10, k - 1);
    }
  }

  /** `"%3d"` prints only blanks, digits and a minus sign. */
  lemma Width3Digits(p: int)
    ensures NoNul(Width3(p)) && NoNul(Width3(p) + "%")
    ensures |Width3(p)| <= 3 + |IntToString(p)|
  {
    var w := Width3(p);
    PlainWidth3(p);
    var s := IntToString(p);
    forall i | 0 <= i < |w| ensures w[i] != NUL {
      if i < |w| - |s| {
        assert w[i] == ' ';
      } else {
        assert w[i] == s[i - (|w| - |s|)];
        if p < 0 && i - (|w| - |s|) > 0 {
          assert s[i - (|w| - |s|)] == NatToString(-p)[i - (|w| - |s|) - 1];
        }
        if p >= 0 {
          assert IsDigit(NatToString(p)[i - (|w| - |s|)]);
        }
      }
    }
  }

  // ---------------------------------------------------------------------------
  // On the screen (C prints only backspaces, so the terminal model applies as is)

  predicate PlainOpt(o: Option<string>) { o.Some? ==> Plain(o.value) }

  /** The trailing label as `progress_finish` prints it: the label or nothing. */
  function RlabelOrEmpty(rlabel: Option<string>): string
  {
    match rlabel
    case None => []
    case Some(r) => r
  }

  lemma PlainWordOpt(o: Option<string>)
    requires PlainOpt(o)
    ensures Plain(WordOpt(o))
  {
    if o.Some? {
      PlainAppend(o.value, " ");
    }
  }

  lemma BackTextWord(rlabel: Option<string>)
    requires AsciiOpt(rlabel)
    ensures BackText(rlabel) == Backspaces(|WordOpt(rlabel)|)
  {
    if rlabel.Some? {
      Utf8LenAscii(rlabel.value);
    }
  }

  /** The line `progress_show` prints, split at the start of the frame. */
  lemma ShowTextSplit(pre: string, labelText: Option<string>, s: string, rlabel: Option<string>)
    ensures pre + ShowText(labelText, s, rlabel)
         == (pre + WordOpt(labelText)) + ((s + " ") + WordOpt(rlabel))
  {
    AppendAssoc(WordOpt(labelText), s + " ", WordOpt(rlabel));
    AppendAssoc(pre, WordOpt(labelText), (s + " ") + WordOpt(rlabel));
  }

  /**
   * Render in place: a redraw that backs over a frame of the width of the
   * new one leaves exactly the meter with the new frame, cursor at its end.
   */
  lemma CRedrawInPlace(lines: seq<string>, pre: string, labelText: Option<string>, rlabel: Option<string>,
                       s: string, t: string)
    requires PlainOpt(rlabel) && AsciiOpt(rlabel) && Plain(t) && |s| == |t|
    ensures Run(AtEnd(lines, pre + ShowText(labelText, s, rlabel)), RedrawText(rlabel, |s| + 1, t))
         == AtEnd(lines, pre + ShowText(labelText, t, rlabel))
  {
    var w := WordOpt(rlabel);
    var k := |s| + 1;
    var oldTail, newTail := (s + " ") + w, (t + " ") + w;
    BackTextWord(rlabel);
    AppendAssoc(Backspaces(|w|), Backspaces(k) + (t + " "), w);
    AppendAssoc(Backspaces(k), t + " ", w);
    AppendAssoc(Backspaces(|w|), Backspaces(k), newTail);
    RepeatAdd(BS, |w|, k);
    assert RedrawText(rlabel, k, t) == Backspaces(|oldTail|) + newTail;
    ShowTextSplit(pre, labelText, s, rlabel);
    ShowTextSplit(pre, labelText, t, rlabel);
    PlainAppend(t, " ");
    PlainWordOpt(rlabel);
    PlainAppend(t + " ", w);
    RedrawSameWidth(lines, pre + WordOpt(labelText), oldTail, newTail);
  }

  /** Every frame is as wide as the cells backed over before it, minus its trailing space. */
  lemma FrameWidth(kind: MeterType, value: int, maxValue: int)
    requires kind != Spinner ==> maxValue > 0
    requires kind == Spinner ==> 0 <= value < 4
    requires kind == Percent ==> -99 <= CPercent(value, maxValue)
    ensures |FrameOf(kind, value, maxValue)| + 1 == RedrawWidth(kind)
    ensures Plain(FrameOf(kind, value, maxValue))
  {
    match kind {
      case Bar => BarTextNoNul(BarUnits(value, maxValue));
      case Percent =>
        var p := CPercent(value, maxValue);
        CPercentBounds(value, maxValue);
        Width3Length(p);
        PlainWidth3(p);
        PlainAppend(Width3(p), "%");
      case Spinner =>
    }
  }

  /**
   * What `progress_update` prints when it redraws replaces the frame on the
   * screen by the new one and leaves both labels in place.
   */
  lemma UpdateRedrawsInPlace(lines: seq<string>, pre: string, labelText: Option<string>, rlabel: Option<string>,
                             kind: MeterType, shown: string, value: int, maxValue: int)
    requires PlainOpt(rlabel) && AsciiOpt(rlabel)
    requires kind != Spinner ==> maxValue > 0
    requires kind == Spinner ==> 0 <= value < 4
    requires kind == Percent ==> -99 <= CPercent(value, maxValue)
    requires |shown| + 1 == RedrawWidth(kind)
    ensures Run(AtEnd(lines, pre + ShowText(labelText, shown, rlabel)),
                RedrawText(rlabel, RedrawWidth(kind), FrameOf(kind, value, maxValue)))
         == AtEnd(lines, pre + ShowText(labelText, FrameOf(kind, value, maxValue), rlabel))
  {
    FrameWidth(kind, value, maxValue);
    CRedrawInPlace(lines, pre, labelText, rlabel, shown, FrameOf(kind, value, maxValue));
  }

  /** Consecutive spinner frames differ, so `progress_update_spinner` always redraws. */
  lemma SpinnerAlwaysRedraws(value: int)
    requires 0 <= value < 4
    ensures 0 <= SpinNext(value) < 4
    ensures [SPIN[SpinNext(value)]] != [SPIN[value]]
  {
    assert SPIN == ['|', '/', '-', '\\'];
    assert [SPIN[SpinNext(value)]][0] == SPIN[SpinNext(value)];
  }

  /** For an ASCII trailing label, `erase_rlabel` covers exactly its printed cells. */
  lemma EraseTextAscii(r: string)
    requires Ascii(r)
    ensures Utf8Len(r) == |r|
    ensures EraseText(Some(r)) == Backspaces(|r| + 1) + Spaces(|r| + 1) + Backspaces(|r| + 1)
  {
    Utf8LenAscii(r);
  }

  /** What erasing the trailing label leaves: blanks after the frame, the cursor after the frame. */
  lemma CEraseRlabel(lines: seq<string>, a: string, g: string, rlabel: Option<string>)
    requires AsciiOpt(rlabel)
    ensures Run(AtEnd(lines, a + g + WordOpt(rlabel)), EraseText(rlabel))
         == Screen(lines, a + g + Spaces(|WordOpt(rlabel)|), |a| + |g|)
  {
    var w := WordOpt(rlabel);
    if rlabel.Some? {
      EraseTextAscii(rlabel.value);
      assert |w| == Utf8Len(rlabel.value) + 1;
      Blot(lines, a + g, w, []);
      assert a + g + w + [] == a + g + w;
      assert a + g + Spaces(|w|) + [] == a + g + Spaces(|w|);
    } else {
      assert Spaces(0) == [];
    }
  }

  /**
   * Erasing the trailing label, then blanking the frame (backspaces, spaces,
   * backspaces over its `|s| + 1` cells), then printing the trailing label
   * and a newline: the line keeps the label and the trailing label, the
   * meter is gone.
   */
  lemma CFinishBlanksMeter(lines: seq<string>, pre: string, labelText: Option<string>, rlabel: Option<string>, s: string)
    requires PlainOpt(rlabel) && AsciiOpt(rlabel)
    ensures var k := |s| + 1;
      Run(AtEnd(lines, pre + ShowText(labelText, s, rlabel)),
          EraseText(rlabel) + (Backspaces(k) + Spaces(k) + Backspaces(k)) + FinishTail(rlabel))
      == Screen(lines + [pre + WordOpt(labelText) + RlabelOrEmpty(rlabel)
                         + Spaces(if rlabel.Some? then k + 1 else k)], [], 0)
  {
    var k := |s| + 1;
    var a := pre + WordOpt(labelText);
    var g := s + " ";
    var w := WordOpt(rlabel);
    var erase, blank := EraseText(rlabel), Backspaces(k) + Spaces(k) + Backspaces(k);
    var s0 := AtEnd(lines, pre + ShowText(labelText, s, rlabel));
    var s1 := Screen(lines, a + g + Spaces(|w|), |a| + |g|);
    assert Run(s0, erase) == s1 by {
      ShowTextSplit(pre, labelText, s, rlabel);
      AppendAssoc(a, g, w);
      CEraseRlabel(lines, a, g, rlabel);
    }
    BlankThenTail(lines, a, g, rlabel);
    RunAppend(s0, erase, blank + FinishTail(rlabel));
    AppendAssoc(erase, blank, FinishTail(rlabel));
  }

  /**
   * After the erase, the frame `g` blanked and the trailing label printed
   * with the newline: the line keeps what preceded the frame, then the
   * trailing label, then blanks.
   */
  lemma BlankThenTail(lines: seq<string>, a: string, g: string, rlabel: Option<string>)
    requires PlainOpt(rlabel)
    ensures var k, w := |g|, WordOpt(rlabel);
      Run(Screen(lines, a + g + Spaces(|w|), |a| + k),
          (Backspaces(k) + Spaces(k) + Backspaces(k)) + FinishTail(rlabel))
      == Screen(lines + [a + RlabelOrEmpty(rlabel) + Spaces(if rlabel.Some? then k + 1 else k)], [], 0)
  {
    var k, w := |g|, WordOpt(rlabel);
    var s1 := Screen(lines, a + g + Spaces(|w|), |a| + k);
    var blank := Backspaces(k) + Spaces(k) + Backspaces(k);
    var s2 := Screen(lines, a + Spaces(k + |w|), |a|);
    assert Run(s1, blank) == s2 by {
      Blot(lines, a, g, Spaces(|w|));
      RepeatAdd(' ', k, |w|);
      AppendAssoc(a, Spaces(k), Spaces(|w|));
    }
    var r := RlabelOrEmpty(rlabel);
    var m := if rlabel.Some? then k + 1 else k;
    assert Run(s2, FinishTail(rlabel)) == Screen(lines + [a + r + Spaces(m)], [], 0) by {
      assert FinishTail(rlabel) == r + "\n";
      assert Plain(r);
      WriteLineOverBlanks(lines, a, r, m);
    }
    RunAppend(s1, blank, FinishTail(rlabel));
  }

  /** The trailing label and the newline, printed over the blanks the erase left. */
  lemma TailOverErased(lines: seq<string>, a: string, g: string, rlabel: Option<string>)
    requires PlainOpt(rlabel)
    ensures Run(Screen(lines, a + g + Spaces(|WordOpt(rlabel)|), |a| + |g|), FinishTail(rlabel))
         == Screen(lines + [a + g + WordOpt(rlabel)], [], 0)
  {
    var r := RlabelOrEmpty(rlabel);
    var w := WordOpt(rlabel);
    assert FinishTail(rlabel) == r + "\n";
    assert Plain(r);
    WriteLineOverBlanks(lines, a + g, r, |w| - |r|);
    if rlabel.Some? {
      assert Spaces(1) == " ";
      AppendAssoc(a + g, r, " ");
    } else {
      assert Spaces(0) == [];
    }
  }

  /** `progress_finish` of a bar: the bar is blanked, the labels stay. */
  lemma FinishBarLeavesLabels(lines: seq<string>, pre: string, labelText: Option<string>, rlabel: Option<string>, units: int)
    requires PlainOpt(rlabel) && AsciiOpt(rlabel)
    ensures Run(AtEnd(lines, pre + ShowText(labelText, BarText(units), rlabel)),
                EraseText(rlabel) + FinishBarText() + FinishTail(rlabel))
         == Screen(lines + [pre + WordOpt(labelText) + RlabelOrEmpty(rlabel)
                            + Spaces(if rlabel.Some? then BAR_WIDTH + 4 else BAR_WIDTH + 3)], [], 0)
  {
    CFinishBlanksMeter(lines, pre, labelText, rlabel, BarText(units));
  }

  /** `progress_finish` of a spinner: the glyph is blanked, the labels stay. */
  lemma FinishSpinnerLeavesLabels(lines: seq<string>, pre: string, labelText: Option<string>, rlabel: Option<string>, frame: nat)
    requires PlainOpt(rlabel) && AsciiOpt(rlabel) && frame < 4
    ensures Run(AtEnd(lines, pre + ShowText(labelText, [SPIN[frame]], rlabel)),
                EraseText(rlabel) + FinishSpinnerText() + FinishTail(rlabel))
         == Screen(lines + [pre + WordOpt(labelText) + RlabelOrEmpty(rlabel)
                            + Spaces(if rlabel.Some? then 3 else 2)], [], 0)
  {
    assert FinishSpinnerText() == Backspaces(2) + Spaces(2) + Backspaces(2);
    CFinishBlanksMeter(lines, pre, labelText, rlabel, [SPIN[frame]]);
  }

  /** The final frame of a percentage meter is "100%"; one of 2 shows " 50%". */
  lemma FinalPercentFrame(maxValue: int)
    requires maxValue > 0
    ensures PercentText(CPercent(maxValue, maxValue)) == "100%"
  {
    CPercentBounds(maxValue, maxValue);
    Width3Of100(CPercent(maxValue, maxValue));
  }

  /** One of 2 shows " 50%", and finishing it redraws 100%. */
  lemma HalfPercentFrame()
    ensures PercentText(CPercent(1, 2)) == " 50%"
    ensures FinishKindText(Percent, Some("b"), " 50%", 2) == FinishRedraw(Some("b"), " 50%", "100%")
  {
    TruncDivNonNegative(202, 4);
    assert TruncDiv(200 * Min(1, 2) + 2, 2 * 2) == 50;
    var p := CPercent(1, 2);
    assert p == 50;
    Width3Of50();
    assert PercentText(p) == Width3(50) + "%";
    assert " 50" + "%" == " 50%";
    FinalPercentFrame(2);
    var f := PercentText(CPercent(2, 2));
    assert FinishKindText(Percent, Some("b"), " 50%", 2) == FinishRedraw(Some("b"), " 50%", f);
  }

  lemma Width3Of50()
    ensures Width3(50) == " 50"
  {
    assert NatToString(5) == "5";
    assert NatToString(50) == NatToString(5) + [DigitChar(0)] == "50";
    assert IntToString(50) == "50";
    assert Spaces(1) == " ";
  }

  /**
   * With the redraw before the erase, finishing a percentage meter leaves the
   * whole meter at 100% with both labels as the finished line.
   */
  lemma FinishPercentCorrectedKeepsMeter(lines: seq<string>, pre: string, labelText: Option<string>,
                                         rlabel: Option<string>, shown: string)
    requires PlainOpt(rlabel) && AsciiOpt(rlabel) && |shown| == 4
    ensures Run(AtEnd(lines, pre + ShowText(labelText, shown, rlabel)),
                FinishRedraw(rlabel, shown, "100%") + EraseText(rlabel) + FinishTail(rlabel))
         == Screen(lines + [pre + ShowText(labelText, "100%", rlabel)], [], 0)
  {
    PlainFullPercent();
    RedrawThenEraseKeepsMeter(lines, pre, labelText, rlabel, shown, "100%");
  }

  /** What the finish of a percentage meter prints is the redraw of "100%". */
  lemma FinishPercentRedraws100(rlabel: Option<string>, shown: string, maxValue: int)
    requires maxValue > 0
    ensures FinishKindText(Percent, rlabel, shown, maxValue) == FinishRedraw(rlabel, shown, "100%")
  {
    FinalPercentFrame(maxValue);
  }

  /** The final redraw of frame `f`, then the erase and the trailing label: the meter ends showing `f`. */
  lemma RedrawThenEraseKeepsMeter(lines: seq<string>, pre: string, labelText: Option<string>,
                                  rlabel: Option<string>, shown: string, f: string)
    requires PlainOpt(rlabel) && AsciiOpt(rlabel) && |shown| == 4 && |f| == 4 && Plain(f)
    ensures Run(AtEnd(lines, pre + ShowText(labelText, shown, rlabel)),
                FinishRedraw(rlabel, shown, f) + EraseText(rlabel) + FinishTail(rlabel))
         == Screen(lines + [pre + ShowText(labelText, f, rlabel)], [], 0)
  {
    var s0 := AtEnd(lines, pre + ShowText(labelText, shown, rlabel));
    var redraw := FinishRedraw(rlabel, shown, f);
    var s1 := AtEnd(lines, pre + ShowText(labelText, f, rlabel));
    assert Run(s0, redraw) == s1 by {
      if shown == f {
        assert redraw == [];
      } else {
        CRedrawInPlace(lines, pre, labelText, rlabel, shown, f);
      }
    }
    var a := pre + WordOpt(labelText);
    var w := WordOpt(rlabel);
    var fw := f + " ";
    var s2 := Screen(lines, a + fw + Spaces(|w|), |a| + 5);
    assert Run(s1, EraseText(rlabel)) == s2 by {
      ShowTextSplit(pre, labelText, f, rlabel);
      AppendAssoc(a, fw, w);
      CEraseRlabel(lines, a, fw, rlabel);
    }
    assert Run(s2, FinishTail(rlabel)) == Screen(lines + [pre + ShowText(labelText, f, rlabel)], [], 0) by {
      TailOverErased(lines, a, fw, rlabel);
      ShowTextSplit(pre, labelText, f, rlabel);
      AppendAssoc(a, fw, w);
    }
    RunAppend(s0, redraw, EraseText(rlabel));
    RunAppend(s0, redraw + EraseText(rlabel), FinishTail(rlabel));
  }

  /**
   * `progress_finish` as written, on a percentage meter with a trailing label
   * `r` whose percentage changes at the end: the trailing label is erased
   * first, so the final redraw backs over its cells a second time, lands
   * `|r| + 1` cells inside the label and overwrites them; the trailing label
   * is then printed twice. The finished line keeps only the first `k` cells
   * of what preceded the frame.
   */
  lemma FinishPercentAsWritten(lines: seq<string>, pre: string, labelText: Option<string>, r: string, shown: string)
    requires Plain(r) && Ascii(r) && |shown| == 4 && shown != "100%"
    requires |r| + 1 <= |pre + WordOpt(labelText)|
    ensures var a := pre + WordOpt(labelText);
      var k := |a| - (|r| + 1);
      Run(AtEnd(lines, pre + ShowText(labelText, shown, Some(r))),
          EraseText(Some(r)) + FinishRedraw(Some(r), shown, "100%") + FinishTail(Some(r)))
      == Screen(lines + [a[..k] + ("100% " + (r + " ")) + (r + " ")], [], 0)
  {
    PlainFullPercent();
    EraseThenRedrawOverLabel(lines, pre, labelText, r, shown, "100%");
    FullPercentWord();
  }

  /**
   * The erase and then the final redraw of frame `f`: the redraw lands
   * `|r| + 1` cells too far left, inside what preceded the frame.
   */
  lemma EraseThenRedrawOverLabel(lines: seq<string>, pre: string, labelText: Option<string>, r: string,
                                 shown: string, f: string)
    requires Plain(r) && Ascii(r) && |shown| == 4 && |f| == 4 && Plain(f) && shown != f
    requires |r| + 1 <= |pre + WordOpt(labelText)|
    ensures var a := pre + WordOpt(labelText);
      var k := |a| - (|r| + 1);
      Run(AtEnd(lines, pre + ShowText(labelText, shown, Some(r))),
          EraseText(Some(r)) + FinishRedraw(Some(r), shown, f) + FinishTail(Some(r)))
      == Screen(lines + [a[..k] + ((f + " ") + (r + " ")) + (r + " ")], [], 0)
  {
    var rl := Some(r);
    var a := pre + WordOpt(labelText);
    var w := r + " ";
    var k := |a| - |w|;
    var fw := f + " ";
    var s0 := AtEnd(lines, pre + ShowText(labelText, shown, rl));
    // erase_rlabel
    var s1 := Screen(lines, a + (shown + " ") + Spaces(|w|), |a| + 5);
    assert Run(s0, EraseText(rl)) == s1 by {
      ShowTextSplit(pre, labelText, shown, rl);
      AppendAssoc(a, shown + " ", w);
      CEraseRlabel(lines, a, shown + " ", rl);
    }
    // the redraw: |w| + 5 backspaces from the end of the frame reach |w| cells into the label
    var line2 := a[..k] + (fw + w);
    var s2 := Screen(lines, line2 + Spaces(|w|), |line2|);
    RedrawAfterErase(lines, a, r, shown, f);
    // the trailing label and the newline over the blanks
    assert Run(s2, FinishTail(rl)) == Screen(lines + [line2 + w], [], 0) by {
      WriteLineOverBlanks(lines, line2, r, 1);
      assert Spaces(1) == " ";
      AppendAssoc(line2, r, " ");
    }
    RunAppend(s0, EraseText(rl), FinishRedraw(rl, shown, f));
    RunAppend(s0, EraseText(rl) + FinishRedraw(rl, shown, f), FinishTail(rl));
  }

  /**
   * The redraw of `f` after the trailing label `r` was erased: its backspaces
   * count the label's cells although the cursor already stands before them.
   */
  lemma RedrawAfterErase(lines: seq<string>, a: string, r: string, shown: string, f: string)
    requires Plain(r) && Ascii(r) && |shown| == 4 && |f| == 4 && Plain(f) && shown != f && |r| + 1 <= |a|
    ensures var k := |a| - (|r| + 1);
      var line2 := a[..k] + ((f + " ") + (r + " "));
      Run(Screen(lines, a + (shown + " ") + Spaces(|r| + 1), |a| + 5), FinishRedraw(Some(r), shown, f))
      == Screen(lines, line2 + Spaces(|r| + 1), |line2|)
  {
    var w := r + " ";
    var k := |a| - |w|;
    var fw := f + " ";
    var b := a[k..] + (shown + " ");
    var text := fw + w;
    Utf8LenAscii(r);
    assert a + (shown + " ") == a[..k] + b by {
      assert a[..k] + a[k..] == a;
      AppendAssoc(a[..k], a[k..], shown + " ");
    }
    assert FinishRedraw(Some(r), shown, f) == Backspaces(|b|) + text by {
      RepeatAdd(BS, |w|, 5);
      AppendAssoc(Backspaces(|w|), Backspaces(5), fw);
      AppendAssoc(Backspaces(|w| + 5), fw, w);
    }
    assert Plain(text) by {
      PlainAppend(f, " ");
      PlainAppend(r, " ");
      PlainAppend(fw, w);
    }
    BackWriteSame(lines, a[..k], b, Spaces(|w|), text);
  }

  /**
   * The case of label "a", trailing label "b" and 1 of 2 shown as
   * "a  50% b ": the line ends as "100% b b " instead of "a 100% b ".
   */
  lemma FinishPercentAsWrittenExample(lines: seq<string>)
    ensures Run(AtEnd(lines, ShowText(Some("a"), " 50%", Some("b"))),
                EraseText(Some("b")) + FinishRedraw(Some("b"), " 50%", "100%") + FinishTail(Some("b")))
         == Screen(lines + ["100% b b "], [], 0)
  {
    var shown := ShowText(Some("a"), " 50%", Some("b"));
    var a := [] + WordOpt(Some("a"));
    assert |a| == 2 && [] + shown == shown by {
      assert WordOpt(Some("a")) == "a" + " ";
    }
    assert Plain("b") && " 50%" != "100%" by {
      assert " 50%"[0] != "100%"[0];
    }
    assert Ascii("b") by {
      assert "b"[0] == 'b';
    }
    PlainFullPercent();
    EraseThenRedrawOverLabel(lines, [], Some("a"), "b", " 50%", "100%");
    assert a[..0] + (("100%" + " ") + ("b" + " ")) + ("b" + " ") == "100% b b " by {
      var t := a[..0] + (("100%" + " ") + ("b" + " ")) + ("b" + " ");
      assert |t| == 9 && t[0] == '1' && t[1] == '0' && t[2] == '0' && t[3] == '%' && t[4] == ' '
        && t[5] == 'b' && t[6] == ' ' && t[7] == 'b' && t[8] == ' ';
    }
  }

  /** What the same meter shows when finished with the redraw first. */
  lemma FullMeterExample()
    ensures ShowText(Some("a"), "100%", Some("b")) == "a 100% b "
  {
    var u := ShowText(Some("a"), "100%", Some("b"));
    assert u == ("a" + " ") + ("100%" + " ") + ("b" + " ");
    assert |u| == 9 && u[0] == 'a' && u[1] == ' ' && u[2] == '1' && u[3] == '0' && u[4] == '0' && u[5] == '%'
      && u[6] == ' ' && u[7] == 'b' && u[8] == ' ';
  }


}
