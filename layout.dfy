/** The unit grid that Patterning.drawGrid lays over the glyph: how far it
    reaches past each margin, and the major and minor lines it draws. */
module Layout {
  import opened Rounding

  /** The numbers drawGrid and drawInfo read once loadParams has run: the
      unit size from the font's lib, the font's descender and unitsPerEm,
      and the glyph's advance width and side margins. */
  datatype Metrics = Metrics(unit: int, descender: int, upm: int, w: int, left: int, right: int)

  /** The two stroke styles of appendLineSublayer: a major line is black at
      25% with width .8, a minor line black at 10% with width .5. */
  datatype Stroke = MajorStroke | MinorStroke

  /** Text fill: black at 50%, or opaque red. */
  datatype Fill = Grey | Red

  /** Horizontal alignment of a text sublayer; LeftAligned is the host's
      default, used when the call names none. */
  datatype Align = LeftAligned | RightAligned

  /** Label text: Plain is shown as is; Rounded(prefix, num, den) stands for
      prefix + str(round(num / den, 3)), whose float formatting is not modelled. */
  datatype Text = Plain(s: string) | Rounded(prefix: string, num: int, den: int)

  /** One sublayer of the background container: a vertical line from
      (x, bottom) to (x, top), or a text line anchored at (x, y); the
      point size is not recorded. */
  datatype Layer =
    | Line(stroke: Stroke, x: real, bottom: int, top: int)
    | TextLine(tx: int, ty: int, fill: Fill, align: Align, text: Text)

  /** `start`: where the grid begins. Zero unless the left margin is
      negative; then a multiple of the unit lying between one and a half
      and two and a half units left of the outline; when left / unit is a
      tie, start / unit is two below its even neighbour. */
  function GridStart(left: int, unit: int): (start: int)
    requires unit > 0
    ensures start <= 0 && start % unit == 0
    ensures left >= 0 ==> start == 0
    ensures left < 0 ==> 2 * left - 5 * unit <= 2 * start <= 2 * left - 3 * unit
    ensures left < 0 && IsTie(left, unit, start / unit + 2) ==> (start / unit) % 2 == 0
  {
    if left < 0 then
      var n := RoundHalfEven(left, unit);
      var start := (n - 2) * unit;
      assert start == n * unit - 2 * unit;
      assert 2 * left - 5 * unit <= 2 * start <= 2 * left - 3 * unit;
      MultipleOfUnit(n - 2, unit);
      start
    else 0
  }

  /** `end`: how far the grid reaches past the advance width. Zero unless
      the right margin is negative; then a positive multiple of the unit
      at least one and a half and at most two and a half units beyond the
      outline's right edge; when right / unit is a tie, end / unit is two
      above the negated even neighbour. */
  function GridEnd(right: int, unit: int): (end: int)
    requires unit > 0
    ensures end >= 0 && end % unit == 0
    ensures right >= 0 ==> end == 0
    ensures right < 0 ==> 3 * unit - 2 * right <= 2 * end <= 5 * unit - 2 * right
    ensures right < 0 && IsTie(right, unit, 2 - end / unit) ==> (end / unit) % 2 == 0
  {
    if right < 0 then
      var n := RoundHalfEven(right, unit);
      var end := (n - 2) * -unit;
      assert end == (2 - n) * unit == 2 * unit - n * unit;
      assert 3 * unit - 2 * right <= 2 * end <= 5 * unit - 2 * right;
      MultipleOfUnit(2 - n, unit);
      end
    else 0
  }

  lemma MultipleOfUnit(k: int, unit: int)
    requires unit > 0
    ensures (k * unit) % unit == 0 && (k * unit) / unit == k
  {
    var q, r := (k * unit) / unit, (k * unit) % unit;
    assert r == (k - q) * unit;
    ZeroFactor(k - q, unit);
  }

  lemma ZeroFactor(d: int, unit: int)
    requires unit > 0
    requires 0 <= d * unit < unit
    ensures d == 0
  {
  }

  /** Python's range(start, stop, step) for a positive step: start,
      start + step, ... while below stop, and not one step more. */
  function Range(start: int, stop: int, step: int): (xs: seq<int>)
    requires step > 0
    ensures forall k :: 0 <= k < |xs| ==> xs[k] == start + k * step && xs[k] < stop
    ensures start + |xs| * step >= stop
    decreases stop - start
  {
    if start >= stop then [] else [start] + Range(start + step, stop, step)
  }

  /** w + end: the last position a major line may take. */
  function Limit(m: Metrics): int
    requires m.unit > 0
  {
    m.w + GridEnd(m.right, m.unit)
  }

  /** The x of every major line: range(start, w + 1 + end, unit). */
  function MajorXs(m: Metrics): (xs: seq<int>)
    requires m.unit > 0
    ensures forall k :: 0 <= k < |xs| ==>
              xs[k] == GridStart(m.left, m.unit) + k * m.unit && xs[k] <= Limit(m)
    ensures GridStart(m.left, m.unit) + |xs| * m.unit > Limit(m)
  {
    Range(GridStart(m.left, m.unit), m.w + 1 + GridEnd(m.right, m.unit), m.unit)
  }

  function MajorLine(m: Metrics, x: int): Layer
  {
    Line(MajorStroke, x as real, m.descender, m.upm + m.descender)
  }

  /** The minor line half a unit right of the major line at x. */
  function MinorLine(m: Metrics, x: int): Layer
  {
    Line(MinorStroke, x as real + m.unit as real / 2.0, m.descender, m.upm + m.descender)
  }

  /** What one pass of drawGrid's loop appends for the major position x,
      given the limit w + end. */
  function LinesAt(m: Metrics, limit: int, x: int): seq<Layer>
  {
    if x < limit then [MajorLine(m, x), MinorLine(m, x)] else [MajorLine(m, x)]
  }

  function LinesOver(m: Metrics, limit: int, xs: seq<int>): seq<Layer>
  {
    if xs == [] then [] else LinesAt(m, limit, xs[0]) + LinesOver(m, limit, xs[1..])
  }

  /** Everything drawGrid leaves in the container, in the order appended. */
  function GridLines(m: Metrics): (ls: seq<Layer>)
    requires m.unit > 0
    ensures forall i :: 0 <= i < |ls| ==> IsVertical(m, ls[i])
  {
    LinesOverVertical(m, Limit(m), MajorXs(m));
    LinesOver(m, Limit(m), MajorXs(m))
  }

  /** A line from (x, descender) to (x, upm + descender). */
  predicate IsVertical(m: Metrics, l: Layer)
  {
    l.Line? && l.bottom == m.descender && l.top == m.upm + m.descender
  }

  /** Every line drawn runs vertically over the font's extent, from the
      descender to upm + descender. */
  lemma {:induction false} LinesOverVertical(m: Metrics, limit: int, xs: seq<int>)
    ensures forall i :: 0 <= i < |LinesOver(m, limit, xs)| ==> IsVertical(m, LinesOver(m, limit, xs)[i])
  {
    if xs != [] {
      LinesOverVertical(m, limit, xs[1..]);
      var head, tail := LinesAt(m, limit, xs[0]), LinesOver(m, limit, xs[1..]);
      var ls: seq<Layer> := head + tail;
      assert LinesOver(m, limit, xs) == ls;
      forall i | 0 <= i < |ls|
        ensures IsVertical(m, ls[i])
      {
        if i >= |head| {
          assert ls[i] == tail[i - |head|];
        }
      }
    }
  }

  /** Reference layout, independent of the loop: the i-th line stands i
      half units right of s, major for even i and minor for odd i, and
      spans the font's vertical extent from descender to upm + descender. */
  function HalfStepLine(m: Metrics, s: int, i: int): Layer
  {
    Line(if i % 2 == 0 then MajorStroke else MinorStroke,
         s as real + (i as real) * (m.unit as real) / 2.0,
         m.descender, m.upm + m.descender)
  }

  /** Line 2k of the reference layout is the major line k units right of
      s, and line 2k + 1 the minor line half a unit right of that. */
  lemma HalfStepPairs(m: Metrics, s: int, k: int)
    ensures HalfStepLine(m, s, 2 * k) == MajorLine(m, s + k * m.unit)
    ensures HalfStepLine(m, s, 2 * k + 1) == MinorLine(m, s + k * m.unit)
  {
    var u := m.unit as real;
    assert (s + k * m.unit) as real == s as real + (k as real) * u;
    assert ((2 * k) as real) * u / 2.0 == (k as real) * u;
    assert ((2 * k + 1) as real) * u / 2.0 == (k as real) * u + u / 2.0;
    assert (2 * k) % 2 == 0 && (2 * k + 1) % 2 == 1;
  }

  /** The number of lines drawn with stroke st. */
  function Count(ls: seq<Layer>, st: Stroke): nat
  {
    if ls == [] then 0
    else (if ls[0].Line? && ls[0].stroke == st then 1 else 0) + Count(ls[1..], st)
  }

  lemma {:induction false} CountConcat(a: seq<Layer>, b: seq<Layer>, st: Stroke)
    ensures Count(a + b, st) == Count(a, st) + Count(b, st)
  {
    if a != [] {
      assert (a + b)[1..] == a[1..] + b;
      CountConcat(a[1..], b, st);
    } else {
      assert a + b == b;
    }
  }

  lemma ShiftHalfStep(m: Metrics, s: int, i: int)
    requires i >= 2
    ensures HalfStepLine(m, s + m.unit, i - 2) == HalfStepLine(m, s, i)
  {
    assert (i - 2) % 2 == i % 2;
    assert (s + m.unit) as real + ((i - 2) as real) * (m.unit as real) / 2.0
        == s as real + (i as real) * (m.unit as real) / 2.0;
  }

  /** One step of drawGrid's range: a major position s <= limit is
      followed by the rest of the range from s + unit. */
  lemma RangeStep(m: Metrics, limit: int, s: int)
    requires m.unit > 0 && s <= limit
    ensures var xs := Range(s, limit + 1, m.unit);
            var rest := Range(s + m.unit, limit + 1, m.unit);
            && xs == [s] + rest
            && LinesOver(m, limit, xs) == LinesAt(m, limit, s) + LinesOver(m, limit, rest)
            && (s == limit ==> rest == [])
            && (rest != [] ==> xs[|xs| - 1] == rest[|rest| - 1])
  {
    var xs := Range(s, limit + 1, m.unit);
    var rest := Range(s + m.unit, limit + 1, m.unit);
    assert xs[1..] == rest;
  }

  lemma HeadCount(m: Metrics, limit: int, x: int)
    ensures |LinesAt(m, limit, x)| == if x < limit then 2 else 1
    ensures Count(LinesAt(m, limit, x), MajorStroke) == 1
    ensures Count(LinesAt(m, limit, x), MinorStroke) == if x < limit then 1 else 0
  {
    var ls := LinesAt(m, limit, x);
    assert Count(ls[..1], MajorStroke) == 1 && Count(ls[..1], MinorStroke) == 0 by {
      assert ls[..1][1..] == [];
    }
    if x < limit {
      assert Count(ls[1..], MajorStroke) == 0 && Count(ls[1..], MinorStroke) == 1 by {
        assert ls[1..][1..] == [];
      }
      assert ls == ls[..1] + ls[1..];
      CountConcat(ls[..1], ls[1..], MajorStroke);
      CountConcat(ls[..1], ls[1..], MinorStroke);
    } else {
      assert ls == ls[..1];
    }
  }

  /** Over major positions that all lie below the limit except perhaps the
      last, which may stand on it: one major and one minor line per
      position, except that no minor follows a major on the limit. */
  lemma {:induction false} LinesOverCount(m: Metrics, limit: int, xs: seq<int>)
    requires forall k :: 0 <= k < |xs| - 1 ==> xs[k] < limit
    requires |xs| > 0 ==> xs[|xs| - 1] <= limit
    ensures var short := if |xs| > 0 && xs[|xs| - 1] == limit then 1 else 0;
            && |LinesOver(m, limit, xs)| == 2 * |xs| - short
            && Count(LinesOver(m, limit, xs), MajorStroke) == |xs|
            && Count(LinesOver(m, limit, xs), MinorStroke) == |xs| - short
  {
    if xs != [] {
      var head, tail := LinesAt(m, limit, xs[0]), LinesOver(m, limit, xs[1..]);
      LinesOverCount(m, limit, xs[1..]);
      HeadCount(m, limit, xs[0]);
      CountConcat(head, tail, MajorStroke);
      CountConcat(head, tail, MinorStroke);
    }
  }

  /** Over major positions s, s + unit, s + 2 * unit, ... lying below the
      limit except perhaps the last: the i-th line is HalfStepLine(m, s, i). */
  lemma {:induction false} LinesOverAt(m: Metrics, limit: int, xs: seq<int>, s: int)
    requires forall k :: 0 <= k < |xs| ==> xs[k] == s + k * m.unit
    requires forall k :: 0 <= k < |xs| - 1 ==> xs[k] < limit
    ensures forall i :: 0 <= i < |LinesOver(m, limit, xs)| ==>
              LinesOver(m, limit, xs)[i] == HalfStepLine(m, s, i)
  {
    if xs != [] {
      var head, tail := LinesAt(m, limit, xs[0]), LinesOver(m, limit, xs[1..]);
      forall k | 0 <= k < |xs[1..]|
        ensures xs[1..][k] == (s + m.unit) + k * m.unit
      {
        assert xs[k + 1] == s + (k + 1) * m.unit;
      }
      LinesOverAt(m, limit, xs[1..], s + m.unit);
      assert tail != [] ==> |head| == 2;
      forall i | 0 <= i < |head| + |tail|
        ensures (head + tail)[i] == HalfStepLine(m, s, i)
      {
        if i >= |head| {
          ShiftHalfStep(m, s, i);
          assert (head + tail)[i] == tail[i - 2];
        }
      }
    }
  }

  /** Major positions below w + end, except perhaps the last. */
  lemma MajorsBelowLimit(m: Metrics)
    requires m.unit > 0
    ensures var xs := MajorXs(m);
            && (forall k :: 0 <= k < |xs| - 1 ==> xs[k] < Limit(m))
            && (|xs| > 0 ==> xs[|xs| - 1] <= Limit(m))
  {
    var xs := MajorXs(m);
    forall k | 0 <= k < |xs| - 1
      ensures xs[k] < Limit(m)
    {
      assert xs[k + 1] == xs[k] + m.unit;
    }
  }

  /** How many lines drawGrid leaves: with n major positions start,
      start + unit, ... up to w + end, 2n lines, or 2n - 1 when the last
      major stands exactly on w + end (no minor follows it); n majors and
      as many minors, less that one. Nothing at all is drawn exactly when
      start lies beyond w + end. */
  lemma GridCount(m: Metrics)
    requires m.unit > 0
    ensures var xs, ls := MajorXs(m), GridLines(m);
            var short := if |xs| > 0 && xs[|xs| - 1] == Limit(m) then 1 else 0;
            && |ls| == 2 * |xs| - short
            && Count(ls, MajorStroke) == |xs|
            && Count(ls, MinorStroke) == |xs| - short
            && (ls == [] <==> GridStart(m.left, m.unit) > Limit(m))
  {
    MajorsBelowLimit(m);
    LinesOverCount(m, Limit(m), MajorXs(m));
  }

  /** Where each line stands: line i of drawGrid's output is
      HalfStepLine(m, start, i), i half units right of start, major for
      even i and minor for odd i, from descender to upm + descender. */
  lemma GridLineAt(m: Metrics)
    requires m.unit > 0
    ensures var ls := GridLines(m);
            forall i :: 0 <= i < |ls| ==> ls[i] == HalfStepLine(m, GridStart(m.left, m.unit), i)
  {
    MajorsBelowLimit(m);
    LinesOverAt(m, Limit(m), MajorXs(m), GridStart(m.left, m.unit));
  }

  /** The k-th major position x is drawn at line 2k, and a minor line
      half a unit on follows it immediately if and only if x < w + end. */
  lemma MinorAfterMajor(m: Metrics, k: int)
    requires m.unit > 0 && 0 <= k < |MajorXs(m)|
    ensures var ls, x := GridLines(m), MajorXs(m)[k];
            && 2 * k < |ls| && ls[2 * k] == MajorLine(m, x)
            && (2 * k + 1 < |ls| <==> x < Limit(m))
            && (2 * k + 1 < |ls| ==> ls[2 * k + 1] == MinorLine(m, x))
  {
    var ls, xs, start := GridLines(m), MajorXs(m), GridStart(m.left, m.unit);
    MajorsBelowLimit(m);
    GridCount(m);
    GridLineAt(m);
    assert xs[k] == start + k * m.unit;
    HalfStepPairs(m, start, k);
    assert ls[2 * k] == HalfStepLine(m, start, 2 * k);
    if 2 * k + 1 < |ls| {
      assert ls[2 * k + 1] == HalfStepLine(m, start, 2 * k + 1);
    }
  }

  /** The lines run left to right: every line stands strictly right of
      every line appended before it. */
  lemma GridAscending(m: Metrics)
    requires m.unit > 0
    ensures var ls := GridLines(m);
            forall i, j :: 0 <= i < j < |ls| ==> ls[i].Line? && ls[j].Line? && ls[i].x < ls[j].x
  {
    GridLineAt(m);
    var ls, start := GridLines(m), GridStart(m.left, m.unit);
    forall i, j | 0 <= i < j < |ls|
      ensures ls[i].Line? && ls[j].Line? && ls[i].x < ls[j].x
    {
      HalfStepAscending(m, start, i, j);
    }
  }

  lemma HalfStepAscending(m: Metrics, s: int, i: int, j: int)
    requires m.unit > 0 && i < j
    ensures HalfStepLine(m, s, i).x < HalfStepLine(m, s, j).x
  {
    var u, d := m.unit as real, (j - i) as real;
    var xi, xj := s as real + (i as real) * u / 2.0, s as real + (j as real) * u / 2.0;
    assert HalfStepLine(m, s, i).x == xi && HalfStepLine(m, s, j).x == xj;
    assert (j as real) * u == (i as real) * u + d * u;
    assert xj - xi == d * u / 2.0;
    assert d * u == u + (d - 1.0) * u;
    assert (d - 1.0) * u >= 0.0;
    assert d * u > 0.0;
  }
}
