/** Screen coordinates: points in signed pixels, sizes in unsigned pixels. */
module Geometry {
  datatype Point = Point(x: int, y: int)
  datatype Size = Size(width: nat, height: nat)

  function Translate(p: Point, dx: int, dy: int): (q: Point)
    ensures q.x - p.x == dx && q.y - p.y == dy
  {
    Point(p.x + dx, p.y + dy)
  }

  /**
   * One step along a grid of seven columns `gw` pixels wide, as the month
   * widgets walk it: from column `k % 7`, adding `gw` reaches the right
   * edge exactly when the column was the last one, and then the walk
   * continues in column 0 of the next row.
   */
  lemma WeekGridStep(k: nat, gw: nat)
    requires gw > 0
    ensures (k % 7) * gw + gw >= 7 * gw <==> k % 7 == 6
    ensures k % 7 == 6 ==> (k + 1) % 7 == 0 && (k + 1) / 7 == k / 7 + 1
    ensures k % 7 != 6 ==> ((k + 1) % 7) * gw == (k % 7) * gw + gw && (k + 1) / 7 == k / 7
  {
    var c := k % 7;
    assert c * gw + gw == (c + 1) * gw;
    if c == 6 {
      assert k + 1 == 7 * (k / 7 + 1);
    } else {
      assert (c + 1) * gw < 7 * gw by {
        MulStrict(c + 1, 7, gw);
      }
      assert k + 1 == 7 * (k / 7) + (c + 1);
    }
  }

  lemma MulMono(a: nat, b: nat, m: nat)
    requires a <= b
    ensures a * m <= b * m
  {
    assert b * m == a * m + (b - a) * m;
  }

  lemma MulStrict(a: nat, b: nat, m: nat)
    requires a < b && m > 0
    ensures a * m < b * m
  {
    assert b * m == a * m + (b - a) * m;
  }

  /**
   * Where a walk over a seven-column grid of cells `gw` by `gh` pixels puts
   * its `i`-th cell when it starts in column `w` of the third row (the
   * first two hold a title and headers). A zero-width grid wraps at every
   * step, so each cell gets a row of its own.
   */
  function WeekGridCell(w: nat, i: nat, gw: nat, gh: nat): Point {
    if gw == 0 then Point(0, (2 + i) * gh)
    else Point(((w + i) % 7) * gw, (2 + (w + i) / 7) * gh)
  }

  /** One step of the walk: right by `gw`, or back to column 0 one row lower at the right edge. */
  function WalkStep(p: Point, gw: nat, gh: nat): Point {
    if p.x + gw >= gw * 7 then Point(0, p.y + gh) else Point(p.x + gw, p.y)
  }

  lemma WalkReachesNextCell(w: nat, i: nat, gw: nat, gh: nat)
    requires w < 7
    ensures WalkStep(WeekGridCell(w, i, gw, gh), gw, gh) == WeekGridCell(w, i + 1, gw, gh)
  {
    if gw > 0 {
      var k := w + i;
      WeekGridStep(k, gw);
      if k % 7 == 6 {
        assert (2 + k / 7) * gh + gh == (2 + (k + 1) / 7) * gh;
      }
    } else {
      assert (2 + i) * gh + gh == (2 + i + 1) * gh;
    }
  }
}
