/** Worked cases of the layout, each derived from the general lemmas. */
module Examples {
  import opened Rounding
  import opened Decimal
  import opened Layout
  import opened Info

  /** round(-50 / 20) is round(-2.5), a tie that goes to the even -2, so a
      left margin of -50 on a 20-unit grid starts the grid at -80. */
  lemma NegativeMarginStart()
    ensures RoundHalfEven(-50, 20) == -2
    ensures GridStart(-50, 20) == -80
  {
    RoundHalfEvenUnique(-50, 20, -2);
  }

  /** With both margins non-negative the grid runs from 0 to w, so the
      majors are the q + 1 positions 0, unit, ..., q * unit for
      q = w / unit (floor), the last one the largest multiple of the unit
      not beyond w. */
  lemma MarginsInside(m: Metrics)
    requires m.unit > 0 && m.w >= 0 && m.left >= 0 && m.right >= 0
    ensures GridStart(m.left, m.unit) == 0 && Limit(m) == m.w
    ensures |MajorXs(m)| == m.w / m.unit + 1
    ensures MajorXs(m)[|MajorXs(m)| - 1] == (m.w / m.unit) * m.unit
  {
    assert GridStart(m.left, m.unit) == 0 && GridEnd(m.right, m.unit) == 0;
    var xs, q, u := MajorXs(m), m.w / m.unit, m.unit;
    assert xs == Range(0, m.w + 1, u);
    var n := |xs|;
    assert n > 0;
    assert xs[n - 1] == 0 + (n - 1) * u && xs[n - 1] < m.w + 1;
    assert 0 + n * u >= m.w + 1;
    assert q * u <= m.w <= (q + 1) * u - 1;
    UnitsBetween(n - 1, q, u);
  }

  /** a and b are both the number of whole units below a bound. */
  lemma UnitsBetween(a: int, b: int, unit: int)
    requires unit > 0
    requires a * unit <= (b + 1) * unit - 1 && b * unit <= (a + 1) * unit - 1
    ensures a == b
  {
    assert a < b ==> (a + 1) * unit <= b * unit;
    assert b < a ==> (b + 1) * unit <= a * unit;
  }

  /** A width of q whole units with non-negative margins: 2q + 1 lines,
      q minors, the last line a major exactly on w. For width 600 on a
      20-unit grid: majors at 0, 20, ..., 600, minors at 10, ..., 590. */
  lemma WholeWidthGrid(m: Metrics)
    requires m.unit > 0 && m.w >= 0 && m.left >= 0 && m.right >= 0
    requires m.w % m.unit == 0
    ensures var ls, q := GridLines(m), m.w / m.unit;
            && |ls| == 2 * q + 1
            && Count(ls, MinorStroke) == q
            && (forall i :: 0 <= i < |ls| ==> ls[i] == HalfStepLine(m, 0, i))
            && ls[2 * q] == Line(MajorStroke, m.w as real, m.descender, m.upm + m.descender)
  {
    MarginsInside(m);
    var ls, xs, q := GridLines(m), MajorXs(m), m.w / m.unit;
    assert xs[|xs| - 1] == Limit(m);
    GridCount(m);
    assert |ls| == 2 * q + 1;
    GridLineAt(m);
    assert ls[2 * q] == HalfStepLine(m, 0, 2 * q);
    HalfStepPairs(m, 0, q);
  }

  /** A width that is not a whole number of units, with non-negative
      margins: 2q + 2 lines for q = w / unit, q + 1 of each stroke, ending
      in the minor half a unit past the last major. For width 605 on a
      20-unit grid that minor stands at 610, beyond w + end. */
  lemma FractionalWidthGrid(m: Metrics)
    requires m.unit > 0 && m.w >= 0 && m.left >= 0 && m.right >= 0
    requires m.w % m.unit != 0
    ensures var ls, q := GridLines(m), m.w / m.unit;
            && |ls| == 2 * q + 2
            && Count(ls, MinorStroke) == q + 1
            && (forall i :: 0 <= i < |ls| ==> ls[i] == HalfStepLine(m, 0, i))
            && ls[2 * q + 1] == MinorLine(m, q * m.unit)
  {
    MarginsInside(m);
    var ls, xs, q := GridLines(m), MajorXs(m), m.w / m.unit;
    assert xs[|xs| - 1] < Limit(m);
    GridCount(m);
    assert |ls| == 2 * q + 2;
    GridLineAt(m);
    assert ls[2 * q + 1] == HalfStepLine(m, 0, 2 * q + 1);
    HalfStepPairs(m, 0, q);
  }

  lemma ThirtyText()
    ensures DecimalString(30) == "30"
  {
    assert DigitChar(3) == '3' && DigitChar(0) == '0';
    assert NatString(3) == "3";
  }

  /** Width 600 on a 20-unit grid: the grey width label "|||30". */
  lemma WholeWidthLabel()
    ensures var m := Metrics(20, -200, 1000, 600, 40, 40);
            WidthLabel(m).fill == Grey && WidthLabel(m).text == Plain("|||30")
  {
    var m := Metrics(20, -200, 1000, 600, 40, 40);
    ThirtyText();
    assert WidthLabel(m).text == Plain("|||" + DecimalString(30));
  }

  /** Width 605 on a 20-unit grid: the width label turns red and shows
      the rounded quotient 30.25. */
  lemma FractionalWidthLabel()
    ensures var m := Metrics(20, -200, 1000, 605, 40, 40);
            WidthLabel(m).fill == Red && WidthLabel(m).text == Rounded("|||", 605, 20)
  {
  }
}
