/** The three measurement labels Patterning.drawInfo appends: the advance
    width and the two side margins, each expressed in units. */
module Info {
  import opened Layout
  import opened Decimal

  /** A metric divided by the unit: a whole number of units, or a fraction
      that the label shows rounded to three decimals. */
  datatype Quotient = Whole(n: int) | Fraction(num: int, den: int)

  /** The test `(v / unit) % 1`: a fraction exactly when the unit does not
      divide v; otherwise the whole quotient, which is then also the floor
      quotient v // unit and is negative for a negative v. */
  function Classify(v: int, unit: int): (q: Quotient)
    requires unit > 0
    ensures q.Whole? <==> v % unit == 0
    ensures q.Whole? ==> q.n * unit == v && q.n == v / unit
    ensures q.Whole? ==> (q.n < 0 <==> v < 0)
    ensures q.Fraction? ==> q == Fraction(v, unit)
  {
    if v % unit != 0 then Fraction(v, unit) else Whole(v / unit)
  }

  /** The label text: prefix + str(quotient), or the rounded fraction. */
  function QuotientText(prefix: string, q: Quotient): Text
  {
    match q
    case Whole(n) => Plain(prefix + DecimalString(n))
    case Fraction(num, den) => Rounded(prefix, num, den)
  }

  /** The width label: "|||" and the width in units, three units right of
      the advance width and 20 above the top of the grid, grey when the
      width is a whole number of units and red when it is not. A whole
      count reads back as exactly w / unit. */
  function WidthLabel(m: Metrics): (l: Layer)
    requires m.unit > 0
    ensures l.TextLine? && l.tx == m.w + 3 && l.ty == m.upm + m.descender + 20
    ensures l.align == LeftAligned
    ensures l.fill == Red <==> m.w % m.unit != 0
    ensures l.fill == Red ==> l.text == Rounded("|||", m.w, m.unit)
    ensures l.fill == Grey ==>
              && l.text.Plain? && |l.text.s| > 3 && l.text.s[..3] == "|||"
              && l.text.s[3..] == DecimalString(m.w / m.unit)
              && ParseDecimal(l.text.s[3..]) == Some(m.w / m.unit)
              && (m.w / m.unit) * m.unit == m.w
              && (l.text.s[3] == '-' <==> m.w < 0)
  {
    var q := Classify(m.w, m.unit);
    var text := QuotientText("|||", q);
    DecimalRoundTrip(m.w / m.unit);
    assert q.Whole? ==> text.s[3..] == DecimalString(m.w / m.unit);
    TextLine(m.w + 3, m.upm + m.descender + 20, if q.Fraction? then Red else Grey, LeftAligned, text)
  }

  /** A margin label at (x, -40) in grey: the margin v in units, the floor
      quotient when the unit divides v (with a leading minus sign for a
      negative margin), the rounded fraction otherwise. */
  function MarginLabel(v: int, unit: int, x: int, align: Align): (l: Layer)
    requires unit > 0
    ensures l.TextLine? && l.tx == x && l.ty == -40 && l.fill == Grey && l.align == align
    ensures l.text.Plain? <==> v % unit == 0
    ensures l.text.Plain? ==> l.text.s == DecimalString(v / unit)
    ensures l.text.Plain? ==> ParseDecimal(l.text.s) == Some(v / unit) && (v / unit) * unit == v
    ensures l.text.Plain? ==> (l.text.s[0] == '-' <==> v < 0)
    ensures l.text.Rounded? ==> l.text == Rounded("", v, unit)
  {
    var q := Classify(v, unit);
    var text := QuotientText("", q);
    DecimalRoundTrip(v / unit);
    assert q.Whole? ==> text.s == DecimalString(v / unit);
    TextLine(x, -40, Grey, align, text)
  }

  /** The left margin, right-aligned just left of the origin, in whole
      units when the unit divides it. */
  function LeftLabel(m: Metrics): (l: Layer)
    requires m.unit > 0
    ensures l.TextLine? && l.tx == -6 && l.ty == -40 && l.align == RightAligned && l.fill == Grey
    ensures l.text.Plain? <==> m.left % m.unit == 0
    ensures l.text.Plain? ==> l.text.s == DecimalString(m.left / m.unit)
    ensures l.text.Plain? ==> ParseDecimal(l.text.s) == Some(m.left / m.unit)
    ensures l.text.Rounded? ==> l.text == Rounded("", m.left, m.unit)
  {
    MarginLabel(m.left, m.unit, -6, RightAligned)
  }

  /** The right margin, left-aligned just right of the advance width, in
      whole units when the unit divides it. */
  function RightLabel(m: Metrics): (l: Layer)
    requires m.unit > 0
    ensures l.TextLine? && l.tx == m.w + 6 && l.ty == -40 && l.align == LeftAligned && l.fill == Grey
    ensures l.text.Plain? <==> m.right % m.unit == 0
    ensures l.text.Plain? ==> l.text.s == DecimalString(m.right / m.unit)
    ensures l.text.Plain? ==> ParseDecimal(l.text.s) == Some(m.right / m.unit)
    ensures l.text.Rounded? ==> l.text == Rounded("", m.right, m.unit)
  {
    MarginLabel(m.right, m.unit, m.w + 6, LeftAligned)
  }

  /** What drawInfo appends: exactly three text lines, the width label
      above the grid on the right, then the left margin below the origin,
      then the right margin below the advance width. */
  function Labels(m: Metrics): (ls: seq<Layer>)
    requires m.unit > 0
    ensures |ls| == 3 && forall i :: 0 <= i < 3 ==> ls[i].TextLine?
    ensures ls[0].tx == m.w + 3 && ls[0].ty == m.upm + m.descender + 20
    ensures ls[0].fill == Red <==> m.w % m.unit != 0
    ensures ls[0].align == LeftAligned
    ensures ls[0].text == (if m.w % m.unit == 0 then Plain("|||" + DecimalString(m.w / m.unit))
                           else Rounded("|||", m.w, m.unit))
    ensures ls[1].tx == -6 && ls[1].ty == -40 && ls[1].align == RightAligned && ls[1].fill == Grey
    ensures ls[1].text == (if m.left % m.unit == 0 then Plain(DecimalString(m.left / m.unit))
                           else Rounded("", m.left, m.unit))
    ensures ls[2].tx == m.w + 6 && ls[2].ty == -40 && ls[2].align == LeftAligned && ls[2].fill == Grey
    ensures ls[2].text == (if m.right % m.unit == 0 then Plain(DecimalString(m.right / m.unit))
                           else Rounded("", m.right, m.unit))
  {
    [WidthLabel(m), LeftLabel(m), RightLabel(m)]
  }
}
