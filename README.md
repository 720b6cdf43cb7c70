# Progress meters, in Dafny

This project models walterdejong/progress. It is a library of terminal progress meters: a bar, a
percentage and a four-frame spinner. Each meter prints a label, its indicator and a trailing label
(`rlabel`) on one line. It redraws the indicator in place with backspaces, at most four times a
second. The library exists in four languages, and each has its own module here.

| module | file | source |
|---|---|---|
| `RustProgress` | rust_lib.dfy | src/lib.rs: `ProgressMeter`, `ProgressPercent`, `ProgressSpinner` |
| `CProgress` | progress_c.dfy | progress.c, with the struct of progress.h |
| `GoProgress` | progress_go.dfy | src/github.com/walterdejong/progress/progress.go |
| `PyProgress` | progress_py.dfy | progress.py: `Meter`, `Bar`, `Spinner`, `Percent` |
| `Format` | format.dfy | shared helpers: repeated characters, `%d` / `%3d` / `{:3}` formatting, and float-to-integer conversions in exact arithmetic |
| `Terminal` | terminal.dfy | a reference model of a dumb terminal (TERM=dumb) |

Each meter is a `class` whose fields are the source's record or struct fields. Its methods update
those fields in place, with `modifies` frames. The clock is a `now` parameter:
- milliseconds in Rust and Go;
- clock ticks in C, with `CLOCKS_PER_SEC` = 1 000 000;
- seconds as a `real` in Python.

Standard output is an `out: string` field that the methods only append to. Each effectful method is
proved against a specification function of the text it prints, such as `PercentRedrawText`,
`RedrawText`, `FinishKindText` or `HideText`.

Some parts of the code are written out as loops and in-place updates:
- The C line buffer is an `array<char>` of 64 cells holding a NUL-terminated string (`CStr`).
- `progress_make_bar` fills that array in a loop with invariants.
- `back_rlabel` prints one backspace per loop iteration.

What the printed text means comes from `Terminal`. It is a screen of finished lines, the current
line and a cursor column:
- a backspace moves the cursor left;
- a carriage return moves it to column 0;
- a newline ends the line;
- every other character overwrites one cell.

The screen lemmas of each implementation state what the terminal shows after an operation, for
example:
- a redraw in place leaves exactly the new meter;
- `hide` blanks the line;
- `finish` leaves the finished line.

They are the partner of each output method.

The float expressions of the sources are modelled exactly:
- `(int)(x * (w / max) + 0.5)` is round-half-up of `w * x / max` (`RoundHalfUp`, `TruncDiv`);
- Python's `percent`, `1.0 / rate` and comparisons are `real`;
- Rust's saturating `as i32` cast is `Saturate32`.

Where the code departs from the documented design or from the other implementations, the model follows the code:
- The C rate limiter compares against `CLOCKS_PER_MSEC / FPS_RATE`. That is 250 clock ticks (a
  quarter of a millisecond), not the 250 ms the other versions use;
  `CProgress.REFRESH_TICKS` is that value.
- Go sets `Timestamp` only in `Meter.Show`. Rate limiting therefore runs from the first `Show`, and an
  update never restarts it.
- Python's `Percent.finish` does not reset `visible`. Every other kind's `finish` does.
- Python's `_render` does not blank a shorter new line. The old cells beyond it stay on screen
  (`PyProgress.RedrawInPlace`).
- The fallback `hide` in Rust blanks a width computed from the labels. For a percentage from -99 up
  it is never narrower than the line, so it leaves blanks, never stray characters
  (`RustProgress.PercentLineWidth`). When a label is empty the width is larger than the line.
- Rust's `str::len` and C's `strlen` count bytes, not characters. Labels are Unicode text, and the
  model counts their UTF-8 bytes (`Format.Utf8Len`) wherever these functions are called.

## Model

| member | source | states |
|---|---|---|
| Format.Repeat | src/github.com/walterdejong/progress/progress.go:108 | `strings.Repeat(c, n)`: exactly `n` cells, every one `c` |
| Format.RepeatInt | progress.py:183 | Python `c * n`: empty for `n <= 0`, otherwise `n` cells |
| Format.IntToString | progress.py:150 | `'{}'.format(n)` / `%d`: non-empty, with a leading minus sign exactly for negative numbers |
| Format.Utf8LenBounds | src/lib.rs:53 | the UTF-8 byte length (`Format.Utf8Len`), as `str::len` and `strlen` count it, is at least the number of characters and at most four times it |
| Format.Utf8LenAscii | progress.c:38 | the byte length equals the character count exactly when the text is ASCII |
| Format.Utf8LenExample | src/lib.rs:73 | "café" has 4 characters and 5 bytes |
| Format.ParseNatToString | src/lib.rs:55 | the decimal text of `n` reads back as `n` (the count inside `ESC [ n D`) |
| Format.Width3Length | progress.c:82 | `%3d` of a number from -99 to 999 is exactly three characters wide |
| Format.Width3Injective | src/github.com/walterdejong/progress/progress.go:182 | different numbers print differently under `%3d` |
| Format.Width3Of100 | progress.c:82 | `%3d%%` of 100 is "100%" |
| Format.Width3Below100 | src/github.com/walterdejong/progress/progress.go:182 | `%3d` of 0 to 99 starts with a padding blank |
| Format.TruncDivBounds | progress.c:50 | the `(int)` cast of `n / d` truncates toward zero: magnitude `floor(|n| / |d|)`, sign of the quotient |
| Format.RoundHalfUp | progress.c:50 | `(int)(x + 0.5)` of a non-negative rational is the nearest integer, halves rounded up |
| Format.RoundHalfUpMonotonic | progress.c:50 | rounding half up is monotonic |
| Format.Saturate32 | src/lib.rs:240 | Rust's float-to-`i32` `as` cast: identity in range, saturating at both ends |
| RustProgress.ProgressMeter.constructor | src/lib.rs:26-38 | `new()`: empty labels, zero value and maximum, clock read, `have_vt100` false, nothing printed |
| RustProgress.ProgressMeter.SetLabel | src/lib.rs:40-42 | the label is replaced |
| RustProgress.ProgressMeter.SetRlabel | src/lib.rs:44-46 | the trailing label is replaced |
| RustProgress.ProgressMeter.BackRlabel | src/lib.rs:48-60 | prints nothing for an empty trailing label, else `ESC [ n D` or `n` backspaces, where `n` is the label's UTF-8 byte length plus 1 |
| RustProgress.ProgressMeter.EraseRlabel | src/lib.rs:62-77 | nothing for an empty trailing label; else back, then `ESC [K`, or back, byte length + 1 blanks and back again |
| RustProgress.ProgressMeter.NeedUpdate | src/lib.rs:79-88 | true exactly when a quarter second has passed; only then is `timestamp` set to now, otherwise unchanged |
| RustProgress.BackRlabelFallback | src/lib.rs:53-58 | the fallback moves back over exactly the printed "rlabel " when the label is ASCII, and further otherwise |
| RustProgress.BackRlabelCountsBytes | src/lib.rs:53 | for "café", which prints in 5 cells, `back_rlabel` prints 6 backspaces |
| RustProgress.BackRlabelAnsi | src/lib.rs:53-55 | the ANSI form is `ESC [`, decimal digits reading back as the byte length plus 1, then `D` |
| RustProgress.BackRlabelEmpty | src/lib.rs:48-51 | both `back_rlabel` and `erase_rlabel` print nothing without a trailing label |
| RustProgress.EraseRlabelBlanks | src/lib.rs:62-77 | on a dumb terminal an ASCII trailing label becomes blanks and the cursor returns to where it began |
| RustProgress.CalcPercentage | src/lib.rs:234-246 | `calc_percentage` is at most 100, and 0 when the maximum is 0 |
| RustProgress.CalcPercentageBounds | src/lib.rs:234-246 | at most 100; 0 without a maximum; non-negative for a non-negative value and positive maximum |
| RustProgress.CalcPercentageRounds | src/lib.rs:240 | for `0 <= value <= max`, it is `100 * value / max` rounded half up, between 0 and 100 |
| RustProgress.CalcPercentageFull | src/lib.rs:240-244 | a value at or above a positive maximum gives 100 |
| RustProgress.CalcPercentageMonotonic | src/lib.rs:240 | more progress never gives a smaller percentage |
| RustProgress.CalcPercentageExample | src/lib.rs:240 | 384 of 2560 is 15% |
| RustProgress.ProgressPercent.constructor | src/lib.rs:228-232 | a fresh meter in the `new()` state |
| RustProgress.ProgressPercent.GetValue | src/lib.rs:152-154 | returns the value |
| RustProgress.ProgressPercent.GetMaxValue | src/lib.rs:156-158 | returns the maximum |
| RustProgress.ProgressPercent.SetLabel | src/lib.rs:160-162 | the label is replaced |
| RustProgress.ProgressPercent.SetRlabel | src/lib.rs:164-166 | the trailing label is replaced |
| RustProgress.ProgressPercent.SetValue | src/lib.rs:168-170 | the value is stored unclamped |
| RustProgress.ProgressPercent.SetMaxValue | src/lib.rs:172-174 | the maximum is stored |
| RustProgress.ProgressPercent.Show | src/lib.rs:176-179 | prints the `Display` text: label and blank, `{:3}% `, trailing label and blank |
| RustProgress.ProgressPercent.Hide | src/lib.rs:181-189 | prints `\r ESC [K`, or a return, `5 + len(label) + 1 + len(rlabel) + 1` blanks (lengths in UTF-8 bytes) and a return |
| RustProgress.ProgressPercent.Update | src/lib.rs:191-201 | stores `min(value, max)`; redraws and restarts the clock only if the percentage changed and a quarter second passed; otherwise prints nothing and keeps `timestamp` |
| RustProgress.ProgressPercent.UpdateValue | src/lib.rs:203-208 | the value becomes `min(value, max)`, so it never exceeds the maximum |
| RustProgress.ProgressPercent.UpdateDisplay | src/lib.rs:210-219 | back over the trailing label, five backspaces, the new `{:3}% `, the trailing label again |
| RustProgress.ProgressPercent.Finish | src/lib.rs:221-224 | the final redraw, then a newline |
| RustProgress.PercentLineWidth | src/lib.rs:135-189 | for a percentage of -99 to 999, the `Display` text is the labels' words plus 5 cells and never wider than the fallback `hide` width; it is exactly as wide when both labels are set and ASCII |
| RustProgress.NegativePercentTooWide | src/lib.rs:203-213 | `update_value` clamps only from above: -1000 of 100 gives -999%, whose field is 6 cells, one more than `update_display` backs over |
| RustProgress.PercentRedrawInPlace | src/lib.rs:210-219 | on a dumb terminal the redraw leaves exactly the meter for the new percentage, cursor at its end |
| RustProgress.PercentHideBlanks | src/lib.rs:181-189 | `hide` blanks a line holding the meter and returns to column 0 |
| RustProgress.PercentHideThenShow | src/lib.rs:176-189 | `hide` then `show`: the fresh meter at the start of the line, followed by blanks only |
| RustProgress.PercentFinishEndsLine | src/lib.rs:221-224 | `finish` leaves the meter with the final percentage as a finished line |
| RustProgress.NextFrame | src/lib.rs:319-324 | the next frame is `(frame + 1) mod 4`, below 4 |
| RustProgress.ProgressSpinner.constructor | src/lib.rs:353-357 | a fresh meter in the `new()` state, at frame 0 |
| RustProgress.ProgressSpinner.GetValue | src/lib.rs:272-274 | returns the frame |
| RustProgress.ProgressSpinner.GetMaxValue | src/lib.rs:276-278 | returns the maximum |
| RustProgress.ProgressSpinner.SetLabel | src/lib.rs:280-282 | the label is replaced |
| RustProgress.ProgressSpinner.SetRlabel | src/lib.rs:284-286 | the trailing label is replaced |
| RustProgress.ProgressSpinner.SetValue | src/lib.rs:288-290 | the argument is ignored; the frame is reset to 0 |
| RustProgress.ProgressSpinner.SetMaxValue | src/lib.rs:292-295 | the argument is ignored; the maximum is set to 0 |
| RustProgress.ProgressSpinner.Show | src/lib.rs:297-300 | prints label and blank, the glyph and blank, trailing label and blank |
| RustProgress.ProgressSpinner.Hide | src/lib.rs:302-310 | `\r ESC [K`, or a return, `2 + len(label) + 1 + len(rlabel) + 1` blanks (lengths in UTF-8 bytes) and a return |
| RustProgress.ProgressSpinner.Update | src/lib.rs:312-317 | the argument is ignored; after a quarter second the frame advances, the clock restarts and the glyph is redrawn, otherwise nothing changes |
| RustProgress.ProgressSpinner.UpdateValue | src/lib.rs:319-324 | the frame advances by one mod 4 and stays in range |
| RustProgress.ProgressSpinner.UpdateDisplay | src/lib.rs:326-337 | back over the trailing label, two backspaces, the glyph and blank, the trailing label again |
| RustProgress.ProgressSpinner.Finish | src/lib.rs:339-349 | erase the trailing label, blank the glyph, print the trailing label (if any) and a newline |
| RustProgress.SpinnerCycle | src/lib.rs:319-331 | the glyphs are `| / - \`, each step changes the glyph, four steps return to the frame |
| RustProgress.SpinnerRedrawInPlace | src/lib.rs:326-337 | on a dumb terminal the new glyph replaces the old one, labels unchanged |
| RustProgress.SpinnerHideBlanks | src/lib.rs:302-310 | `hide` blanks a line holding the spinner |
| RustProgress.WipeGlyph | src/lib.rs:342 | `\b\b  \b\b` blanks the two cells before the cursor and returns there |
| RustProgress.SpinnerFinishLeavesRlabel | src/lib.rs:339-349 | the finished line is the label, then the trailing label where the spinner stood, then blanks |
| CProgress.CStr | progress.h:27 | the C string in a buffer: its cells before the first NUL, which contain no NUL |
| CProgress.BarText | progress.c:54-64 | the bar is 22 characters wide |
| CProgress.ProgressMeter.constructor | progress.c:27-31 | `progress_init`: the type set, NULL labels, zero value, maximum and timestamp, a buffer of NULs |
| CProgress.ProgressMeter.BackRlabel | progress.c:33-42 | nothing for a NULL trailing label, else `strlen + 1` backspaces (the UTF-8 byte length), printed by a loop |
| CProgress.ProgressMeter.EraseRlabel | progress.c:191-199 | nothing for NULL; else back, `strlen + 1` blanks (bytes), back |
| CProgress.ProgressMeter.WriteLine | progress.c:82 | `snprintf` into the 64-cell buffer: at most 63 characters and a NUL, later cells untouched |
| CProgress.ProgressMeter.MakeBar | progress.c:44-65 | cells 0 and 21 are `|`, cell `i` from 1 to 20 is `=` iff `i <= units`, cell 22 is NUL, the rest untouched |
| CProgress.ProgressMeter.ShowBar | progress.c:67-70 | renders the bar and prints it with a blank |
| CProgress.ProgressMeter.MakePercent | progress.c:72-83 | the buffer holds `%3d%%` of the clamped, rounded percentage |
| CProgress.ProgressMeter.ShowPercent | progress.c:85-88 | renders the percentage and prints it with a blank |
| CProgress.ProgressMeter.MakeSpinner | progress.c:90-96 | `value++` wrapped to 0 at 4; the buffer holds `SPIN[value]` |
| CProgress.ProgressMeter.ShowSpinner | progress.c:98-101 | advances the spinner and prints the glyph with a blank |
| CProgress.ProgressMeter.PrintRedraw | progress.c:141-148 | back over the trailing label and the frame, print the line and blank, then the trailing label |
| CProgress.ProgressMeter.SaveLine | progress.c:130-132 | the bounded `strncpy` copy holds the same C string as the buffer |
| CProgress.ProgressMeter.RedrawIfChanged | progress.c:136-139 | prints nothing when the regenerated line equals the copy, else the redraw |
| CProgress.ProgressMeter.UpdateBar | progress.c:103-127 | the new bar is in the buffer; nothing printed when it equals the old one, else 23 backspaces and the redraw |
| CProgress.ProgressMeter.UpdatePercent | progress.c:129-149 | the new percentage is in the buffer; nothing printed when unchanged, else 5 backspaces and the redraw |
| CProgress.ProgressMeter.UpdateSpinner | progress.c:151-171 | the frame advances; nothing printed when the glyph is unchanged, else 2 backspaces and the redraw |
| CProgress.ProgressMeter.FinishBar | progress.c:173-179 | 23 backspaces, 23 blanks, 23 backspaces |
| CProgress.ProgressMeter.FinishPercent | progress.c:181-185 | the value becomes the maximum and the percentage is redrawn if it changed |
| CProgress.ProgressMeter.FinishSpinner | progress.c:187-189 | `\b\b  \b\b` |
| CProgress.ProgressMeter.Show | progress.c:201-229 | prints label, frame and trailing label with their blanks, sets the timestamp, leaves the frame in the buffer (a spinner advances) |
| CProgress.ProgressMeter.PrintWord | progress.c:202-204 | a non-NULL label and its blank |
| CProgress.ProgressMeter.ShowFrame | progress.c:206-221 | the `progress_show_*` of the meter's type |
| CProgress.ProgressMeter.Update | progress.c:231-264 | stores the value (not for a spinner); unless the clock moved ahead by `CLOCKS_PER_MSEC / FPS_RATE`, nothing else changes; then the timestamp is set and the frame redrawn if it changed |
| CProgress.ProgressMeter.Finish | progress.c:266-293 | as written: erase the trailing label, the type's finish, the trailing label and newline, an empty buffer; a percentage meter's value becomes the maximum |
| CProgress.ProgressMeter.FinishCorrected | progress.c:266-293 | the same, with a percentage meter redrawn before its trailing label is erased |
| CProgress.ProgressMeter.FinishFrame | progress.c:269-284 | the `progress_finish_*` of the meter's type |
| CProgress.ProgressMeter.PrintTail | progress.c:286-290 | the trailing label and a newline, or just the newline |
| CProgress.ProgressMeter.ClearLine | progress.c:292 | `line[0] = 0` empties the C string |
| CProgress.BarTextNoNul | progress.c:54-64 | the bar has no NUL and no control character |
| CProgress.BarTextFilled | progress.c:56-62 | the bar is `|`, `Clamp(units)` times `=`, blanks, `|`: never more than 20 `=` cells |
| CProgress.BarUnitsRounds | progress.c:45-50 | for `0 <= value <= max`, `units` is `20 * value / max` rounded half up, between 0 and 20 |
| CProgress.BarFullWhenDone | progress.c:45-50 | a value at or above the maximum fills all 20 cells |
| CProgress.BarUnitsMonotonic | progress.c:45-50 | more progress never shows fewer `=` cells, and never more than 20 |
| CProgress.CPercentRounds | progress.c:73-78 | for `0 <= value <= max`, the percentage is `100 * value / max` rounded half up, between 0 and 100 |
| CProgress.CPercentBounds | progress.c:73-81 | at most 100, exactly 100 once the maximum is reached, non-negative for a non-negative value |
| CProgress.CastsInRange | progress.c:45-50 | for any value from 0 up, the `(int)` casts of the bar and the percentage stay within 0 to 20 and 0 to 100, so C defines them |
| CProgress.CastOutOfRange | progress.c:72-77 | `INT_MIN` of 1 takes the percentage cast below `INT_MIN`, where C leaves it undefined |
| CProgress.PercentTextFits | progress.c:82 | for every 32-bit value and positive maximum, the text of the model's exact percentage fits the 64-byte buffer and has no NUL (for a value whose cast C leaves undefined, see `CProgress.CPercent` under Left out) |
| CProgress.CRedrawInPlace | progress.c:141-148 | a redraw backing over a frame as wide as the new one leaves exactly the meter with the new frame |
| CProgress.FrameWidth | progress.c:117-121 | each frame is one cell narrower than what its update backs over (23, 5, 2 cells) and has no control character |
| CProgress.UpdateRedrawsInPlace | progress.c:231-264 | what `progress_update` prints replaces the frame on the screen and keeps both labels |
| CProgress.SpinnerAlwaysRedraws | progress.c:151-161 | consecutive spinner frames differ, so the no-change return is never taken |
| CProgress.EraseTextAscii | progress.c:191-199 | for an ASCII trailing label the erase sequence backs up, blanks and backs up over exactly its printed cells |
| CProgress.CEraseRlabel | progress.c:191-199 | on the screen an ASCII trailing label becomes blanks, cursor right after the frame |
| CProgress.CFinishBlanksMeter | progress.c:266-293 | erase, blank the frame, print the trailing label and newline: label and trailing label stay, the meter is gone |
| CProgress.BlankThenTail | progress.c:173-179 | blanking the frame, then the trailing label and newline over the cleared cells |
| CProgress.TailOverErased | progress.c:286-290 | the trailing label and newline over the erased cells restore the trailing label |
| CProgress.FinishBarLeavesLabels | progress.c:173-179 | finishing a bar leaves both labels and blanks where the bar was |
| CProgress.FinishSpinnerLeavesLabels | progress.c:187-189 | finishing a spinner leaves both labels and blanks where the glyph was |
| CProgress.FinalPercentFrame | progress.c:181-185 | the final frame of a percentage meter is "100%" |
| CProgress.HalfPercentFrame | progress.c:72-83 | 1 of 2 shows " 50%", and finishing it redraws "100%" |
| CProgress.FinishPercentRedraws100 | progress.c:181-185 | the percentage finish prints the redraw of "100%" |
| CProgress.FinishPercentCorrectedKeepsMeter | progress.c:266-293 | with the redraw first, the finished line is the whole meter at 100% with both labels |
| CProgress.RedrawThenEraseKeepsMeter | progress.c:266-293 | redrawing a 4-cell frame, erasing and reprinting the trailing label leaves the meter with that frame |
| CProgress.FinishPercentAsWritten | progress.c:266-276 | as written: the redraw lands `len(rlabel) + 1` cells too far left and the trailing label appears twice |
| CProgress.EraseThenRedrawOverLabel | progress.c:267-275 | the erase, then the final redraw, for any 4-cell frame: the redraw overwrites the cells before the frame |
| CProgress.RedrawAfterErase | progress.c:141-143 | after the erase, the redraw's backspaces are counted from the end of the trailing label, which is already gone |
| CProgress.FinishPercentAsWrittenExample | progress.c:266-293 | label "a", trailing label "b", 1 of 2: the line ends as "100% b b " |
| CProgress.FullMeterExample | progress.c:201-229 | the same meter at 100% is "a 100% b " |
| GoProgress.EffectiveWidth | src/github.com/walterdejong/progress/progress.go:96-98 | positive, and the given width when that is positive |
| GoProgress.BarText | src/github.com/walterdejong/progress/progress.go:108 | `width + 2` cells: `|`, `=` for cells `1..units`, blanks, `|` |
| GoProgress.Meter.constructor | src/github.com/walterdejong/progress/progress.go:23-29 | the zero `Meter{}` |
| GoProgress.Meter.ShouldRefresh | src/github.com/walterdejong/progress/progress.go:51-56 | true exactly when 250 ms passed since `Timestamp`; changes nothing |
| GoProgress.Meter.Show | src/github.com/walterdejong/progress/progress.go:64-73 | `Timestamp` restarts on every call; the label is printed only the first time; then visible |
| GoProgress.Meter.Finish | src/github.com/walterdejong/progress/progress.go:89-93 | a newline; invisible, empty line |
| GoProgress.Bar.constructor | src/github.com/walterdejong/progress/progress.go:31-35 | the zero `Bar{}` |
| GoProgress.Bar.Render | src/github.com/walterdejong/progress/progress.go:95-109 | a width of 0 or less becomes 10; `units` is between 0 and the width; `line` is the bar |
| GoProgress.Bar.Show | src/github.com/walterdejong/progress/progress.go:111-116 | `Meter.Show`, then the bar and a blank |
| GoProgress.Bar.Update | src/github.com/walterdejong/progress/progress.go:118-132 | the value is always stored; only after 250 ms and when the bar changed, `Width + 3` backspaces and the new bar |
| GoProgress.Bar.Finish | src/github.com/walterdejong/progress/progress.go:134-140 | as written: value at the maximum, the full bar drawn only when the rate limiter allows it (and only then is a width of 0 or less set to 10), then the newline |
| GoProgress.Bar.FinishCorrected | src/github.com/walterdejong/progress/progress.go:134-140 | the full bar drawn whenever it is not already shown, then the newline |
| GoProgress.Spinner.constructor | src/github.com/walterdejong/progress/progress.go:37-39 | the zero `Spinner{}` |
| GoProgress.Spinner.Render | src/github.com/walterdejong/progress/progress.go:142-149 | `Value++` wrapped to 0 at 4; `line` is its glyph |
| GoProgress.Spinner.Show | src/github.com/walterdejong/progress/progress.go:151-155 | `Meter.Show`, then the next glyph and a blank |
| GoProgress.Spinner.Update | src/github.com/walterdejong/progress/progress.go:157-165 | the argument is ignored; after 250 ms two backspaces and the next glyph, else nothing changes |
| GoProgress.Spinner.Finish | src/github.com/walterdejong/progress/progress.go:167-170 | `\b\b  \b\b`, then `Meter.Finish` |
| GoProgress.Percent.constructor | src/github.com/walterdejong/progress/progress.go:41-43 | the zero `Percent{}` |
| GoProgress.Percent.Render | src/github.com/walterdejong/progress/progress.go:172-183 | `line` is `%3d%%` of the clamped, rounded percentage |
| GoProgress.Percent.Show | src/github.com/walterdejong/progress/progress.go:185-189 | `Meter.Show`, then the percentage and a blank |
| GoProgress.Percent.Update | src/github.com/walterdejong/progress/progress.go:191-204 | the value is always stored; only after 250 ms and when the text changed, 5 backspaces and the new text |
| GoProgress.Percent.Finish | src/github.com/walterdejong/progress/progress.go:206-212 | as written: "100%" drawn only when the rate limiter allows it, then the newline |
| GoProgress.Percent.FinishCorrected | src/github.com/walterdejong/progress/progress.go:206-212 | "100%" drawn whenever it is not already shown, then the newline |
| GoProgress.BarUnitsRounds | src/github.com/walterdejong/progress/progress.go:100-106 | for a value in range, `units` is `width * value / max` rounded half up |
| GoProgress.BarUnitsBounds | src/github.com/walterdejong/progress/progress.go:100-108 | `units` is between 0 and the width, so the `strings.Repeat` counts are non-negative |
| GoProgress.BarUnitsFull | src/github.com/walterdejong/progress/progress.go:100-108 | at or above the maximum every cell is `=` |
| GoProgress.BarUnitsMonotonic | src/github.com/walterdejong/progress/progress.go:100-106 | more progress never shows fewer `=` cells |
| GoProgress.BarTextInjective | src/github.com/walterdejong/progress/progress.go:124-128 | two bars of one width are equal iff their units are, so `Update` redraws exactly when `units` changed |
| GoProgress.BarRedrawInPlace | src/github.com/walterdejong/progress/progress.go:130-131 | the `Width + 3` backspaces cover exactly the bar and its blank; the new bar replaces it |
| GoProgress.PercentValueRounds | src/github.com/walterdejong/progress/progress.go:173-178 | for a value in range, `100 * value / max` rounded half up, between 0 and 100 |
| GoProgress.PercentValueBounds | src/github.com/walterdejong/progress/progress.go:173-181 | at most 100, exactly 100 from the maximum on, non-negative for a non-negative value |
| GoProgress.PercentValueMonotonic | src/github.com/walterdejong/progress/progress.go:173-178 | more progress never gives a smaller percentage |
| GoProgress.PercentFinalText | src/github.com/walterdejong/progress/progress.go:206-209 | at the maximum the text is "100%" |
| GoProgress.PercentTextInjective | src/github.com/walterdejong/progress/progress.go:197-201 | texts are equal iff the percentages are, so `Update` redraws exactly when the percentage changed |
| GoProgress.PercentTextLength | src/github.com/walterdejong/progress/progress.go:182 | `%3d%%` of -99 to 100 is 4 characters |
| GoProgress.PercentRedrawInPlace | src/github.com/walterdejong/progress/progress.go:203 | the 5 backspaces cover exactly the text and its blank; the new text replaces it |
| GoProgress.PercentRedrawToFull | src/github.com/walterdejong/progress/progress.go:203 | the redraw of "100%" over any shown percentage leaves "100% " |
| GoProgress.SpinnerCycle | src/github.com/walterdejong/progress/progress.go:142-148 | frames stay in 0..3, consecutive glyphs differ, four steps return to the frame |
| GoProgress.SpinnerRedrawInPlace | src/github.com/walterdejong/progress/progress.go:162-164 | the 2 backspaces cover exactly the glyph and its blank |
| GoProgress.SpinnerFinishBlanks | src/github.com/walterdejong/progress/progress.go:167-170 | the glyph and its blank become blanks and the line is ended |
| GoProgress.BarFinishAsWrittenKeepsPartialBar | src/github.com/walterdejong/progress/progress.go:134-140 | within 250 ms of `Show`, a partial bar stays on the finished line |
| GoProgress.BarFinishCorrectedShowsFull | src/github.com/walterdejong/progress/progress.go:134-140 | the corrected finish ends the line with the full bar |
| GoProgress.PercentFinishAsWrittenKeepsPercent | src/github.com/walterdejong/progress/progress.go:206-212 | within 250 ms of `Show`, a percentage below 100 stays on the finished line |
| GoProgress.PercentFinishCorrectedShows100 | src/github.com/walterdejong/progress/progress.go:206-212 | the corrected finish ends the line with "100% " |
| PyProgress.Meter.constructor | progress.py:23-40 | `Meter(...)` without a formatter, with Python's defaults: fields from the arguments, invisible, timestamp 0, empty line |
| PyProgress.Meter.Bar | progress.py:157-167 | `Bar(...)`, width 20 and face `"| =|"` by default: never cleared, holds maximum, width and face |
| PyProgress.Meter.Spinner | progress.py:191-196 | `Spinner(...)`: value 0, cleared when finished |
| PyProgress.Meter.Percent | progress.py:218-227 | `Percent(...)`: never cleared, holds the maximum |
| PyProgress.Meter.Render | progress.py:142-150 | the `render` of the meter's class; only a spinner's advances `value` |
| PyProgress.Meter.Back | progress.py:89-96 | nothing for an empty line, else `ESC [ len D` or `len(line)` backspaces |
| PyProgress.Meter.Erase | progress.py:98-104 | `ESC [K`, or `len(line)` blanks |
| PyProgress.Meter.Display | progress.py:84-87 | prints the line |
| PyProgress.Meter.RenderLine | progress.py:70-82 | `line` becomes render, blank, trailing label and blank; printed after backing up only if it differs from the old line |
| PyProgress.Meter.Show | progress.py:42-53 | nothing while visible; otherwise label, `_render`, visible, clock restarted |
| PyProgress.Meter.Hide | progress.py:55-68 | as written: invisible, the line wiped on screen, but `line` still holds the wiped text |
| PyProgress.Meter.HideCorrected | progress.py:55-68 | the same, and `line` is emptied |
| PyProgress.Meter.Update | progress.py:106-121 | stores the value (a spinner keeps its own); shows an invisible meter; redraws a visible one only after `1 / rate` seconds, restarting the clock |
| PyProgress.Meter.Reset | progress.py:136-140 | value 0, empty line |
| PyProgress.Meter.Finish | progress.py:123-134 | hides when `clear`, else redraws and ends the line; then reset and invisible. A percentage meter redraws at its maximum, ends the line and keeps `visible` |
| PyProgress.TooSoonInterval | progress.py:115-118 | with a positive rate, a redraw is skipped exactly when `diff * rate < 1` |
| PyProgress.BarUnitsRounds | progress.py:172-176 | `units` is the nearest integer to `min(value, max) * width / max`, halves rounded up |
| PyProgress.BarUnitsBounds | progress.py:172-176 | `units` is between 0 and the width |
| PyProgress.BarUnitsOfMax | progress.py:172-176 | at the maximum `units` equals the width |
| PyProgress.BarUnitsMonotonic | progress.py:172-176 | more progress never gives fewer units |
| PyProgress.BarBodyCells | progress.py:183-184 | the ends are `face[0]` and `face[-1]`, cell `i` is `face[2]` iff `i <= units`, else `face[1]` |
| PyProgress.BarTextLayout | progress.py:169-184 | the whole bar text: ends, cells, a blank, then `str(value)` |
| PyProgress.BarFullAtMax | progress.py:172-184 | at the maximum every cell is `face[2]` |
| PyProgress.PercentReachedIff | progress.py:232-238 | `percent >= 100` iff the value reaches the maximum |
| PyProgress.PercentBelowMax | progress.py:236-246 | below the maximum the text is `int(percent)` and `%`, with `int(percent)` from 0 to 99 and the truncated `100 * value / max` |
| PyProgress.PercentTextIs100 | progress.py:229-246 | the text is "100%" iff the value reached the maximum |
| PyProgress.PercentAtMax | progress.py:248-253 | `Percent.finish` renders "100%" |
| PyProgress.SpinnerCycle | progress.py:198-206 | frames stay in 0..3, cycle with period 4, consecutive glyphs differ |
| PyProgress.SpinnerFrame | progress.py:202-206 | from any value Python can index with, the next glyph is one of the face |
| PyProgress.RedrawInPlace | progress.py:70-82 | on a dumb terminal the new line replaces the old; cells of a longer old line remain |
| PyProgress.HideBlanks | progress.py:55-68 | `hide` blanks every cell of the label and line and returns to column 0 |
| PyProgress.FinishEndsLine | progress.py:126-131 | a meter that is not cleared ends with its final line |
| PyProgress.PercentFinishShows100 | progress.py:248-256 | the final line of `Percent.finish` starts with "100%" |
| PyProgress.HideShowAsWrittenLosesMeter | progress.py:55-82 | `hide` then `show` of the same text: only the label and blanks remain on screen |
| PyProgress.HideShowCorrectedShowsMeter | progress.py:55-82 | with `HideCorrected`, `show` draws the whole meter after the label |

## Left out

- Rust `ProgressBar` (src/lib.rs:109-129) is only a constructor and commented-out TODOs: it has no behaviour to model.
- The Python thread meters (`ThreadMeter` and its subclasses) run on a background thread; concurrency is not modelled.
- The demonstration drivers are left out: src/main.rs, src/test_progress.go, the `_test_*` functions of progress.py and the `TEST_PROGRESS` block of progress.c. They are sleep loops.
- Go `Meter.render` and `Meter.Update` have commented-out bodies and do nothing; they are not modelled.
- Clocks (`Instant::now`, `clock()`, `time.Now`, `time.monotonic`) are the `now` parameter. A C `clock_t` that wraps around is not modelled.
- Flushing standard output has no visible effect in the model and is left out.
- RustProgress.ProgressMeter.BackRlabel, RustProgress.ProgressMeter.EraseRlabel, CProgress.ProgressMeter.BackRlabel and CProgress.ProgressMeter.EraseRlabel: these count the trailing label in UTF-8 bytes, as the sources do. `Terminal` gives every character one cell, so the screen lemmas built on them (`EraseRlabelBlanks`, the `RedrawInPlace` and finish lemmas, `CEraseRlabel`) require ASCII labels. With a non-ASCII label the sources back up more cells than the label occupies, and what the screen then shows is not stated (`RustProgress.BackRlabelCountsBytes` gives the count).
- RustProgress.ProgressPercent.Hide and RustProgress.ProgressSpinner.Hide: these blank a width counted in bytes. For non-ASCII labels that is wider than the line. `PercentLineWidth` states the exact equality only for ASCII labels.
- RustProgress.CalcPercentage: `update_value` clamps only from above, so a value below about `-max` gives a percentage below -99, which prints in more than three characters. The Rust screen lemmas cover percentages from -99 to 999 only. Below that, `update_display`'s five backspaces and `hide`'s width are one or more cells short (`RustProgress.NegativePercentTooWide`).
- CProgress.BarUnits, CProgress.CPercent and GoProgress.PercentValue: a very negative value makes the source's float-to-integer cast leave the range of `int`, undefined in C (progress.c:50,77) and implementation-defined in Go (src/github.com/walterdejong/progress/progress.go:178, an `int32` conversion). The model gives the exact integer instead. `CProgress.CastsInRange` shows that every value from 0 up stays in range, and `CProgress.CastOutOfRange` gives a value that does not.
- The `Terminal` model does not interpret ANSI sequences. The ANSI path is specified by the text it prints, and the screen lemmas cover only the backspace fallback.
- Floating point: every float expression is computed exactly. Results that differ from the `float32` / `f32` / double value by a rounding step are not modelled.
- Python `formatter` callables are foreign code; only the `formatter is None` paths are modelled. Reading `TERM` is the `vt100` constructor argument. The other keyword defaults (`width=20`, `face='| =|'`, `rate=_FPS_RATE`, empty labels) are the constructors' default parameter values.
- Inputs the sources crash on are preconditions:
  - C and Go divide by a zero maximum (`maxValue > 0`);
  - Go's `strings.Repeat` panics on a negative count (`Value >= 0` for a bar);
  - C `value++` overflows (`value < INT_MAX`);
  - spinner indices out of range (`Valid()` / `CanRender`).
  Rust's explicit zero-maximum guard is modelled as written.
- PyProgress.Meter.Finish: Python's `Percent.finish` prints the newline, but it does not reset `visible`. The contract says so, and does not promise the invisibility the other kinds get.
- Rust `have_vt100` is always false after construction (src/lib.rs:27). The ANSI branches are modelled but are only reachable by assigning the field.

## Findings

| source | as written | input that shows it | evidently intended | confidence | as-written member | corrected member |
|---|---|---|---|---|---|---|
| progress.c:266-276 | `progress_finish` calls `erase_rlabel`, which leaves the cursor before the erased trailing label. The percentage finish then backs over the trailing label a second time before drawing 100%. | percentage meter, label "a", trailing label "b", max 2, value 1 (shown "a  50% b "): the finished line is "100% b b " | the line "a 100% b ": redraw 100%, then erase and reprint the trailing label | not executed | CProgress.ProgressMeter.Finish, CProgress.FinishPercentAsWrittenExample | CProgress.ProgressMeter.FinishCorrected, CProgress.FinishPercentCorrectedKeepsMeter |
| src/github.com/walterdejong/progress/progress.go:134-140 | `Bar.Finish` ("show 100%") draws the final bar through `Update`, which is rate limited, and `Timestamp` is only set by `Show` | `Show` at value 0, then `Finish` within 250 ms: the empty bar stays on the finished line | the full bar before the newline, whatever the clock | not executed | GoProgress.Bar.Finish, GoProgress.BarFinishAsWrittenKeepsPartialBar | GoProgress.Bar.FinishCorrected, GoProgress.BarFinishCorrectedShowsFull |
| src/github.com/walterdejong/progress/progress.go:206-212 | `Percent.Finish` ("show 100%") goes through the rate-limited `Update` | `Show` at 0%, then `Finish` within 250 ms: "  0% " stays on the finished line | "100% " before the newline | not executed | GoProgress.Percent.Finish, GoProgress.PercentFinishAsWrittenKeepsPercent | GoProgress.Percent.FinishCorrected, GoProgress.PercentFinishCorrectedShows100 |
| progress.py:55-68 | `hide` wipes the line on screen but keeps `self.line`, so the next `_render` of the same text prints nothing | a bar at a fixed value: `hide()`, then `show()` leaves only the label and blanks, while `visible` is True | `show` after `hide` draws the meter again | not executed | PyProgress.Meter.Hide, PyProgress.HideShowAsWrittenLosesMeter | PyProgress.Meter.HideCorrected, PyProgress.HideShowCorrectedShowsMeter |
