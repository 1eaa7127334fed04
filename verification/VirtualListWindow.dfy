/** The window arithmetic under VirtualList (src/ui/virtual_list_window.h). */
module VirtualListWindow {
  import opened Wrappers

  /** The half-open row range [first, first + count). */
  datatype VisibleRows = VisibleRows(first: nat, count: nat) {
    predicate Has(row: int) {
      first <= row < first + count
    }
  }

  const NO_ROWS := VisibleRows(0, 0)

  /** C++ division, which rounds towards zero. */
  function TruncDiv(a: int, b: int): int
    requires b > 0
  {
    if a >= 0 then a / b else -((-a) / b)
  }

  /** Division rounding towards negative infinity, built on TruncDiv as the source builds it. */
  function FloorDiv(a: int, b: int): (q: int)
    requires b > 0
    ensures q * b <= a < (q + 1) * b
  {
    if a >= 0 then TruncDiv(a, b)
    else
      var up := TruncDiv(-a + b - 1, b);
      assert (-up) * b <= a < (-up + 1) * b;
      -up
  }

  function Clamp(v: int, lo: int, hi: int): int {
    if v < lo then lo else if v > hi then hi else v
  }

  function ComputeVisibleRows(listTop: int, viewHeight: int, pitch: int, total: nat, overscan: nat): VisibleRows {
    if total == 0 || pitch <= 0 || viewHeight <= 0 then NO_ROWS
    else
      var firstOnScreen := FloorDiv(-listTop, pitch);
      var lastOnScreen := FloorDiv(viewHeight - 1 - listTop, pitch);
      FloorDivMonotone(-listTop, viewHeight - 1 - listTop, pitch);
      Clamped(firstOnScreen, lastOnScreen, total, overscan)
  }

  function Clamped(firstOnScreen: int, lastOnScreen: int, total: nat, overscan: nat): VisibleRows
    requires firstOnScreen <= lastOnScreen && total > 0
  {
    var first := Clamp(firstOnScreen - overscan, 0, total - 1);
    var last := Clamp(lastOnScreen + overscan, 0, total - 1);
    VisibleRows(first, last - first + 1)
  }

  /** The row of the window that a pool slot shows, row r using slot r % poolSize. */
  function RowForSlot(slot: nat, poolSize: nat, window: VisibleRows): (row: Option<nat>)
    ensures row.Some? ==> window.Has(row.value)
  {
    if poolSize == 0 || slot >= poolSize || window.count == 0 then None
    else
      var offset := (slot + poolSize - window.first % poolSize) % poolSize;
      if offset < window.count then Some(window.first + offset) else None
  }

  function MaxVisibleRows(viewHeight: int, pitch: int, overscan: nat): nat {
    if pitch <= 0 || viewHeight <= 0 then 0
    else TruncDiv(viewHeight + pitch - 1, pitch) + 2 + 2 * overscan
  }

  lemma MulMonotone(a: int, b: int, d: int)
    requires d > 0 && a <= b
    ensures a * d <= b * d
  {
    assert (b - a) * d == b * d - a * d;
    assert (b - a) * d >= 0;
  }

  /** A multiple is at most `a` exactly when its factor is at most the quotient. */
  lemma FloorDivBounds(a: int, d: int, k: int)
    requires d > 0
    ensures k * d <= a <==> k <= FloorDiv(a, d)
  {
    var q := FloorDiv(a, d);
    if k <= q {
      MulMonotone(k, q, d);
    } else {
      MulMonotone(q + 1, k, d);
    }
  }

  lemma FloorDivMonotone(a: int, b: int, d: int)
    requires d > 0 && a <= b
    ensures FloorDiv(a, d) <= FloorDiv(b, d)
  {
    FloorDivBounds(b, d, FloorDiv(a, d));
  }

  /** Some pixel of the row's pitch lies in the view. */
  predicate OnScreen(row: int, listTop: int, viewHeight: int, pitch: int) {
    listTop + row * pitch < viewHeight && listTop + (row + 1) * pitch > 0
  }

  /** Rows on screen are exactly those between the two quotients. */
  lemma OnScreenRange(row: int, listTop: int, viewHeight: int, pitch: int)
    requires pitch > 0 && viewHeight > 0
    ensures OnScreen(row, listTop, viewHeight, pitch) <==>
            FloorDiv(-listTop, pitch) <= row <= FloorDiv(viewHeight - 1 - listTop, pitch)
  {
    FloorDivBounds(-listTop, pitch, row + 1);
    FloorDivBounds(viewHeight - 1 - listTop, pitch, row);
  }

  /** A row of the list is on screen within `overscan` rows of this one. */
  ghost predicate NearScreen(row: int, listTop: int, viewHeight: int, pitch: int, total: nat, overscan: nat) {
    exists r: nat :: r < total && row - overscan <= r <= row + overscan && OnScreen(r, listTop, viewHeight, pitch)
  }

  /** Every row on screen is in the window; and as long as any is, the window is those rows and the `overscan`
      rows to either side of them, no more and no fewer. */
  lemma WindowCoversScreen(listTop: int, viewHeight: int, pitch: int, total: nat, overscan: nat, row: nat)
    requires pitch > 0 && viewHeight > 0 && row < total
    ensures var window := ComputeVisibleRows(listTop, viewHeight, pitch, total, overscan);
            && (OnScreen(row, listTop, viewHeight, pitch) ==> window.Has(row))
            && ((exists r: nat :: r < total && OnScreen(r, listTop, viewHeight, pitch)) ==>
                  (window.Has(row) <==> NearScreen(row, listTop, viewHeight, pitch, total, overscan)))
  {
    var window := ComputeVisibleRows(listTop, viewHeight, pitch, total, overscan);
    var first := FloorDiv(-listTop, pitch);
    var last := FloorDiv(viewHeight - 1 - listTop, pitch);
    OnScreenRange(row, listTop, viewHeight, pitch);
    if r: nat :| r < total && OnScreen(r, listTop, viewHeight, pitch) {
      OnScreenRange(r, listTop, viewHeight, pitch);
      if window.Has(row) {
        var near := Clamp(row, Clamp(first, 0, total - 1), Clamp(last, 0, total - 1));
        OnScreenRange(near, listTop, viewHeight, pitch);
      }
      if NearScreen(row, listTop, viewHeight, pitch, total, overscan) {
        var n: nat :| n < total && row - overscan <= n <= row + overscan && OnScreen(n, listTop, viewHeight, pitch);
        OnScreenRange(n, listTop, viewHeight, pitch);
      }
    }
  }

  /** A view meets at most one row more than it has room for. */
  lemma SpanBound(listTop: int, viewHeight: int, pitch: int)
    requires pitch > 0 && viewHeight > 0
    ensures FloorDiv(viewHeight - 1 - listTop, pitch) - FloorDiv(-listTop, pitch)
            <= TruncDiv(viewHeight + pitch - 1, pitch)
  {
    var next := FloorDiv(-listTop, pitch) + 1;
    var rows := FloorDiv(viewHeight + pitch - 1, pitch);
    FloorDivBounds(-listTop, pitch, next);
    FloorDivBounds(viewHeight - 1 - listTop, pitch, next + rows);
    assert (rows + 1) * pitch == rows * pitch + pitch;
    assert (next + rows) * pitch == next * pitch + rows * pitch;
  }

  lemma ClampedFits(first: int, last: int, total: nat, overscan: nat, span: int)
    requires first <= last <= first + span && total > 0
    ensures var window := Clamped(first, last, total, overscan);
            window.first + window.count <= total && 0 < window.count <= span + 2 + 2 * overscan
  {
  }

  /** The window never outgrows the list, nor the pool sized for it. */
  lemma WindowFits(listTop: int, viewHeight: int, pitch: int, total: nat, overscan: nat)
    ensures var window := ComputeVisibleRows(listTop, viewHeight, pitch, total, overscan);
            && window.first + window.count <= total
            && window.count <= MaxVisibleRows(viewHeight, pitch, overscan)
            && (total > 0 && pitch > 0 && viewHeight > 0 ==> window.count > 0)
  {
    if total > 0 && pitch > 0 && viewHeight > 0 {
      SpanBound(listTop, viewHeight, pitch);
      FloorDivMonotone(-listTop, viewHeight - 1 - listTop, pitch);
      ClampedFits(FloorDiv(-listTop, pitch), FloorDiv(viewHeight - 1 - listTop, pitch), total, overscan,
                  TruncDiv(viewHeight + pitch - 1, pitch));
    }
  }

  /** The pool is not sized for nothing: in a long enough list some position has a window that fills all of it
      but two buttons. */
  lemma PoolIsTight(viewHeight: int, pitch: int, overscan: nat) returns (listTop: int, total: nat)
    requires pitch > 0 && viewHeight > 0
    ensures ComputeVisibleRows(listTop, viewHeight, pitch, total, overscan).count + 2
            >= MaxVisibleRows(viewHeight, pitch, overscan)
  {
    listTop := -(overscan * pitch + pitch - 1);
    var first, last := FloorDiv(-listTop, pitch), FloorDiv(viewHeight - 1 - listTop, pitch);
    var rows := TruncDiv(viewHeight + pitch - 1, pitch);
    FloorDivBounds(-listTop, pitch, overscan);
    FloorDivBounds(-listTop, pitch, overscan + 1);
    assert (overscan + 1) * pitch == overscan * pitch + pitch;
    FloorDivBounds(viewHeight + pitch - 1, pitch, rows);
    assert (overscan + rows - 1) * pitch == overscan * pitch + rows * pitch - pitch;
    FloorDivBounds(viewHeight - 1 - listTop, pitch, overscan + rows - 1);
    FloorDivMonotone(-listTop, viewHeight - 1 - listTop, pitch);
    total := last + overscan + 1;
  }

  lemma ModUnique(x: nat, m: nat, q: int, r: int)
    requires m > 0 && x == q * m + r && 0 <= r < m
    ensures x % m == r
  {
    var p := x / m;
    assert x == p * m + x % m;
    assert (q - p) * m == x % m - r by {
      assert (q - p) * m == q * m - p * m;
    }
    assert (p - q) * m == -((q - p) * m);
    if q > p {
      MulMonotone(1, q - p, m);
    } else if q < p {
      MulMonotone(1, p - q, m);
    }
  }

  /** In a window no larger than the pool, a slot shows a row exactly when the row is in the window and
      the slot is the row's own: so each row of the window has one slot and no slot has two. */
  lemma SlotShowsItsRow(slot: nat, poolSize: nat, window: VisibleRows, row: nat)
    requires 0 < window.count <= poolSize
    ensures RowForSlot(slot, poolSize, window) == Some(row) <==> window.Has(row) && slot == row % poolSize
  {
    var turn, base := window.first / poolSize, window.first % poolSize;
    assert window.first == turn * poolSize + base;
    if slot < poolSize {
      if slot >= base {
        ModUnique(slot + poolSize - base, poolSize, 1, slot - base);
      } else {
        ModUnique(slot + poolSize - base, poolSize, 0, slot + poolSize - base);
      }
    }
    if window.Has(row) {
      var k := row - window.first;
      if base + k < poolSize {
        ModUnique(row, poolSize, turn, base + k);
      } else {
        assert (turn + 1) * poolSize == turn * poolSize + poolSize;
        ModUnique(row, poolSize, turn + 1, base + k - poolSize);
      }
    }
  }
}
