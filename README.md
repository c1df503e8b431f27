# Patterning unit grid, modelled in Dafny

Patterning is a RoboFont glyph-editor subscriber. It overlays a unit grid
and three measurement labels on the glyph being edited. A button toggles
the overlay on and off. This project models the part with real logic, the
`Patterning` class in `patterning.py`:

- **Grid extent.** `start` and `end` stretch the grid past a negative
  margin. Both use Python 3's `round`, which rounds halves to even.
- **Grid lines.** `drawGrid` clears the background container and then
  draws its `for x in range(...)` loop. Each pass draws one major line,
  then a minor line half a unit further on while `x < w + end`.
- **Labels.** `drawInfo` appends the width, left-margin and right-margin
  labels, each given in units. A label is a whole number or a rounded
  fraction. The width label is red when the width is fractional.
- **Visibility.** The `show` bit is flipped by XOR. `update` redraws
  when shown and clears the container when hidden.

Modules:

- `rounding.dfy` (`Rounding`): `round(a / b)` with ties to even, exactly
  over integers.
- `decimal.dfy` (`Decimal`): `str()` of an int, with a parser that
  reads it back.
- `layout.dfy` (`Layout`):
  - the metrics and the container's sublayer records;
  - `start` and `end`;
  - Python's `range` and the lines `drawGrid` emits;
  - a closed-form description of those lines that uses no loop.
- `labels.dfy` (`Info`): the three labels of `drawInfo`.
- `patterning.dfy` (`PatterningPlugin`): the `Patterning` class with its
  `show`, metrics and container fields, and the methods that change them.
- `examples.dfy` (`Examples`): the grid for non-negative margins, and
  worked cases from a 20-unit grid.

Line positions are `real`, because a minor line at `x + unit / 2` is a
float in Python 3. Major positions are integers. Every line runs from
`descender` to `upm + descender`.

## Model

| member | source | states |
|---|---|---|
| `Rounding.RoundHalfEven` | patterning.py:50 | `round(a / b)` lies within half a unit of `a / b`, and on a tie it is even |
| `Rounding.RoundHalfEvenUnique` | patterning.py:50-53 | any integer within half of `a / b` that is even on a tie equals `RoundHalfEven(a, b)`, so the rounding is exactly Python 3's round-half-to-even |
| `Rounding.NearestEvenUnique` | patterning.py:50-53 | two integers that are both within half of `a / b` and both even on a tie are equal, so nearest-with-ties-to-even has one answer |
| `Layout.GridStart` | patterning.py:49-51 | `start` is a non-positive multiple of the unit; it is 0 when `left >= 0`; otherwise it lies at least 1.5 and at most 2.5 units left of `left`, and when `left / unit` is a tie, `start / unit + 2` is the even neighbour (so -50 on a 20-unit grid gives -80, not -100) |
| `Layout.GridEnd` | patterning.py:52-54 | `end` is a non-negative multiple of the unit; it is 0 when `right >= 0`; otherwise it lies between `-right + 1.5 * unit` and `-right + 2.5 * unit`, so it is strictly positive, and when `right / unit` is a tie, `2 - end / unit` is the even neighbour (so -50 on a 20-unit grid gives 80, not 100) |
| `Layout.Range` | patterning.py:55 | `range(start, stop, step)` yields `start + k * step` at index k; every element is below `stop`; one more step would reach `stop` |
| `Layout.MajorXs` | patterning.py:55 | the major positions are `start + k * unit` for k = 0, 1, ...; every one is at most `w + end`, and one more step would pass it |
| `Layout.GridLines` | patterning.py:55-69 | every sublayer `drawGrid` leaves is a vertical line from `(x, descender)` to `(x, upm + descender)` |
| `Layout.LinesOverVertical` | patterning.py:57-69 | every line the loop appends runs from `descender` to `upm + descender` |
| `Layout.LinesOverCount` | patterning.py:55-69 | over majors that all lie below `w + end` except perhaps the last: two lines per major, one fewer when the last major stands exactly on `w + end`; that many major and minor strokes |
| `Layout.LinesOverAt` | patterning.py:55-69 | over majors `s, s + unit, ...`, line i of the loop's output is the reference line `HalfStepLine(m, s, i)` |
| `Layout.GridCount` | patterning.py:55-69 | with n majors, `drawGrid` leaves 2n lines, or 2n - 1 when the last major lands exactly on `w + end`; that is n major strokes, and n or n - 1 minor ones; the output is empty exactly when `start > w + end` |
| `Layout.GridLineAt` | patterning.py:55-69 | line i of `drawGrid`'s output is the reference line `HalfStepLine(m, start, i)`: it stands `start + i * unit / 2` from the origin, is major for even i and minor for odd i, and runs from `descender` to `upm + descender` |
| `Layout.HalfStepPairs` | patterning.py:57-69 | reference line 2k is the major line at `s + k * unit`, and line 2k + 1 is the minor half a unit after it, so majors and minors alternate |
| `Layout.MinorAfterMajor` | patterning.py:55-69 | the k-th major position x is drawn at line 2k; a minor line at `x + unit / 2` follows it immediately if and only if `x < w + end` |
| `Layout.GridAscending` | patterning.py:55-69 | every line stands strictly right of every line appended before it |
| `Decimal.NatString` | patterning.py:75 | `str(n)` for `n >= 0` is a non-empty run of digits with no leading zero |
| `Decimal.DecimalString` | patterning.py:81 | `str(n)` starts with `-` exactly when `n < 0`; a non-empty run of digits follows, with no leading zero unless n is 0, and then the text is exactly `"0"` (so never `"-0"` and never `"030"`) |
| `Decimal.DecimalRoundTrip` | patterning.py:75-86 | the label text `str(n)` parses back to `n` |
| `Info.Classify` | patterning.py:71-86 | the quotient is whole exactly when the unit divides the value; a whole quotient times the unit is the value, equals the floor quotient `v // unit`, and is negative exactly when the value is |
| `Info.WidthLabel` | patterning.py:71-76 | the width label sits at `(w + 3, upm + descender + 20)` and is red exactly when `w` is not a multiple of the unit; a red label shows the rounded `w / unit` after `|||`; a grey one shows `|||` followed by exactly `str(w / unit)`, which reads back as `w / unit` and has a minus sign exactly when `w < 0` |
| `Info.MarginLabel` | patterning.py:78-108 | a margin label is grey at `(x, -40)` with the alignment given; its text is plain exactly when the unit divides the margin; plain text is exactly `str(v // unit)`, reads back as that floor quotient, and has a minus sign exactly for negative margins; otherwise it is the rounded fraction |
| `Info.LeftLabel` | patterning.py:78-101 | the left-margin label is grey, right-aligned at `(-6, -40)`; it is plain exactly when the unit divides `left`, and its text is then exactly `str(left // unit)`, which reads back as `left // unit`; otherwise it is `round(left / unit, 3)` with no prefix |
| `Info.RightLabel` | patterning.py:83-108 | the right-margin label is grey, left-aligned at `(w + 6, -40)`; it is plain exactly when the unit divides `right`, and its text is then exactly `str(right // unit)`, which reads back as `right // unit`; otherwise it is `round(right / unit, 3)` with no prefix |
| `Info.Labels` | patterning.py:70-108 | `drawInfo` appends exactly three text lines, in order: the width label, left-aligned at `(w + 3, upm + descender + 20)`, red exactly when `w` is not a multiple of the unit, reading `"|||" + str(w / unit)` or the rounded quotient; the grey left label, right-aligned at `(-6, -40)`, reading `str(left // unit)` or the rounded quotient; the grey right label at `(w + 6, -40)`, reading `str(right // unit)` or the rounded quotient |
| `PatterningPlugin.Patterning.Build` | patterning.py:10-23 | `build` leaves `show` at 0 and the container empty |
| `PatterningPlugin.Patterning.LoadParams` | patterning.py:25-34 | the fields hold the metrics just read |
| `PatterningPlugin.Patterning.DrawGrid` | patterning.py:45-69 | the loop clears the container and leaves exactly `GridLines(metrics)` in it, with nothing from before |
| `PatterningPlugin.Patterning.DrawInfo` | patterning.py:70-108 | the container grows by exactly the width, left and right labels, in that order |
| `PatterningPlugin.Patterning.Destroy` | patterning.py:132-133 | the container is empty |
| `PatterningPlugin.Patterning.Update` | patterning.py:110-116 | `show` is unchanged; when shown, the metrics are reloaded and the container holds the new grid and then the three labels; when hidden, the container is empty and the metrics are untouched |
| `PatterningPlugin.Patterning.ShowButtonCallback` | patterning.py:119-121 | `show` flips between 0 and 1, and the container then shows exactly what `update` draws for the new state |
| `PatterningPlugin.View` | patterning.py:110-116 | hidden: the container is empty; shown: exactly the lines of `drawGrid` (`GridLines`), then the three text labels of `drawInfo` (`Labels`), and only the first part holds lines |
| `Examples.NegativeMarginStart` | patterning.py:49-51 | `round(-50 / 20)` is -2 (a tie goes to even), so a left margin of -50 on a 20-unit grid starts the grid at -80 |
| `Examples.MarginsInside` | patterning.py:49-55 | with non-negative margins the grid starts at 0 and its limit is `w`; there are `w // unit + 1` majors, and the last is the largest multiple of the unit not beyond `w` |
| `Examples.WholeWidthGrid` | patterning.py:55-69 | when the width is q whole units and the margins are non-negative, there are 2q + 1 lines and q minors; line i is at `i * unit / 2`, major for even i and minor for odd i; the last line is a major exactly on `w`; width 600 on a 20-unit grid gives majors 0..600 and minors 10..590 |
| `Examples.FractionalWidthGrid` | patterning.py:55-69 | when the width is not a whole number of units, there are 2q + 2 lines and q + 1 minors; line i is at `i * unit / 2`, major for even i and minor for odd i; the last line is the minor half a unit past the last major; width 605 on a 20-unit grid ends with the minor at 610, past `w + end` |
| `Examples.WholeWidthLabel` | patterning.py:71-76 | width 600 on a 20-unit grid gives the grey label `"|||30"` |
| `Examples.FractionalWidthLabel` | patterning.py:71-73 | width 605 on a 20-unit grid gives a red label showing the rounded `605 / 20` |

## Left out

- Host wiring is not modelled. This covers subscriber registration, the
  `Subscriber` base class, the `debug` flag and the metrics-change delay.
  It also covers the callbacks `glyphEditorDidScale`,
  `glyphEditorGlyphDidChangeMetrics` and `glyphEditorDidSetGlyph`. Each of
  those callbacks only calls `update`, which is modelled.
- The button widget and its styling are not modelled, nor is the unused
  `AskString` import.
- The container's drawing calls (`clearSublayers`, `appendLineSublayer`,
  `appendTextLineSublayer`) are modelled as a sequence of line and text
  records. Stroke colours and widths are reduced to the constants
  `MajorStroke`/`MinorStroke`, and fill colours to `Grey`/`Red`. The
  12-point type size of the labels is dropped: no constant stands for it.
- `loadParams` reads the font and glyph through the host. The model passes
  in `w`, `left`, `right`, `descender`, `upm` and `unit` as integers
  instead. `range()` needs `start`, `w` and `end` to be integers.
- `loadUnit`'s lookup in the font's `lib` is not modelled. Neither is its
  missing-key path, which flips `show`, re-enters `update` and then fails
  on arithmetic with `None`.
- A positive unit is a precondition of every grid and label operation,
  and of `Update` whenever it redraws. With a zero unit the Python code
  raises. With a negative unit, `range` walks downward. Neither case is
  modelled. The code does not reject a bad unit explicitly.
- Fractional label text, `str(round(v / unit, 3))`, is float formatting.
  It is kept symbolic as `Rounded(prefix, v, unit)`.
- Float division is taken to be exact. The float test `(v / unit) % 1` is
  modelled as `v % unit != 0`. `round(left / unit)` is modelled on the
  exact quotient. For integer metrics far below 2^53, float rounding
  cannot create or remove a tie, so the two agree there.
- The constructor gives `metrics` a placeholder value. The Python object
  has no such fields until the first `loadParams`, and the placeholder is
  never read while `show` is 0.
