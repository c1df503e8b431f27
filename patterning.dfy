/** The Patterning subscriber's own state and the methods that change it:
    a visibility bit flipped by the button, and the background container
    that drawGrid and drawInfo fill and destroy empties. */
module PatterningPlugin {
  import opened Layout
  import opened Info

  /** What the container shows for given metrics and visibility: the grid
      followed by the three labels when shown, nothing when hidden. */
  function View(m: Metrics, show: bv1): (v: seq<Layer>)
    requires show == 1 ==> m.unit > 0
    ensures show == 0 ==> v == []
    ensures show == 1 ==> |v| == |GridLines(m)| + 3
    ensures show == 1 ==> forall i :: 0 <= i < |v| ==> (v[i].Line? <==> i < |v| - 3)
    ensures show == 1 ==> v[..|v| - 3] == GridLines(m)
    ensures show == 1 ==> v[|v| - 3..] == Labels(m)
  {
    if show == 1 then GridLines(m) + Labels(m) else []
  }

  /** One pass of drawGrid's loop keeps "drawn so far, then the lines for
      the rest of the range" equal to the whole grid. */
  lemma LoopStep(m: Metrics, limit: int, x: int, drawn: seq<Layer>, whole: seq<Layer>)
    requires m.unit > 0 && x <= limit
    requires drawn + LinesOver(m, limit, Range(x, limit + 1, m.unit)) == whole
    ensures (drawn + LinesAt(m, limit, x)) + LinesOver(m, limit, Range(x + m.unit, limit + 1, m.unit)) == whole
  {
    RangeStep(m, limit, x);
  }

  class Patterning {
    /** 1 when the grid is shown, 0 when hidden. */
    var show: bv1
    /** The numbers loadParams last read from the font and glyph. */
    var metrics: Metrics
    /** The sublayers of the background container, in the order appended. */
    var container: seq<Layer>

    /** build: the container starts empty and the grid hidden, and the
        first update only clears it again. */
    constructor Build()
      ensures show == 0 && container == []
    {
      show := 0;
      metrics := Metrics(1, 0, 0, 0, 0, 0);
      container := [];
      new;
      assert show == 0;
      Update(metrics);
    }

    /** loadParams, with what it reads from the host passed in as m. */
    method LoadParams(m: Metrics)
      modifies this`metrics
      ensures metrics == m
    {
      metrics := m;
    }

    /** drawGrid: clears the container, then appends a major line for
        every x in range(start, w + 1 + end, unit), each followed by a
        minor line half a unit on while x < w + end. */
    method DrawGrid()
      requires metrics.unit > 0
      modifies this`container
      ensures container == GridLines(metrics)
    {
      container := [];
      var m := metrics;
      var start := GridStart(m.left, m.unit);
      var end := GridEnd(m.right, m.unit);
      ghost var limit := m.w + end;
      assert GridLines(m) == LinesOver(m, limit, Range(start, limit + 1, m.unit));
      var x := start;
      while x < m.w + 1 + end
        invariant container + LinesOver(m, limit, Range(x, limit + 1, m.unit)) == GridLines(m)
        decreases m.w + 1 + end - x
      {
        ghost var before := container;
        container := container + [MajorLine(m, x)];
        if x < m.w + end {
          container := container + [MinorLine(m, x)];
        }
        assert container == before + LinesAt(m, limit, x);
        LoopStep(m, limit, x, before, GridLines(m));
        x := x + m.unit;
      }
    }

    /** drawInfo: appends the width, left and right labels. */
    method DrawInfo()
      requires metrics.unit > 0
      modifies this`container
      ensures container == old(container) + Labels(metrics)
    {
      container := container + [WidthLabel(metrics)];
      container := container + [LeftLabel(metrics)];
      container := container + [RightLabel(metrics)];
    }

    /** destroy: empties the container. */
    method Destroy()
      modifies this`container
      ensures container == []
    {
      container := [];
    }

    /** update: when shown, reload the metrics and redraw grid and labels
        from scratch; when hidden, only clear the container. */
    method Update(m: Metrics)
      requires show == 1 ==> m.unit > 0
      modifies this`metrics, this`container
      ensures show == old(show)
      ensures metrics == (if show == 1 then m else old(metrics))
      ensures container == View(m, show)
    {
      if show == 1 {
        LoadParams(m);
        DrawGrid();
        DrawInfo();
      } else {
        Destroy();
      }
    }

    /** showButtonCallback: flip the visibility bit, then update. */
    method ShowButtonCallback(m: Metrics)
      requires show == 0 ==> m.unit > 0
      modifies this`show, this`metrics, this`container
      ensures show == old(show) ^ 1 && show != old(show)
      ensures metrics == (if show == 1 then m else old(metrics))
      ensures container == View(m, show)
    {
      show := show ^ 1;
      Update(m);
    }
  }
}
