/** First-fit packing of widget tiles and the row descriptors that grow with it
    (src/ui/grid_occupancy.h, src/ui/dashboard_grid.cpp). */
module DashboardGrids {
  const COLUMNS := 4
  const MAX_ROW_SPAN := 100
  const PANEL_WIDTH := 720
  const GRID_PADDING := 8
  const CELL_GAP := 8
  const ROW_HEIGHT := (PANEL_WIDTH - 2 * GRID_PADDING - (COLUMNS - 1) * CELL_GAP) / COLUMNS

  datatype Span = Span(cols: nat, rows: nat)
  {
    predicate Valid() {
      1 <= cols <= COLUMNS && 1 <= rows <= MAX_ROW_SPAN
    }
  }

  datatype Rect = Rect(row: nat, col: nat, span: Span)
  {
    predicate Covers(r: nat, c: nat) {
      row <= r < row + span.rows && col <= c < col + span.cols
    }
  }

  function Clamp(x: int, low: int, high: int): int
    requires low <= high
  {
    if x < low then low else if x > high then high else x
  }

  function ClampSpan(cols: int, rows: int): (s: Span)
    ensures s.Valid()
    ensures s.cols == cols <==> 1 <= cols <= COLUMNS
    ensures s.rows == rows <==> 1 <= rows <= MAX_ROW_SPAN
    ensures (s.cols > cols ==> s.cols == 1) && (s.cols < cols ==> s.cols == COLUMNS)
    ensures (s.rows > rows ==> s.rows == 1) && (s.rows < rows ==> s.rows == MAX_ROW_SPAN)
  {
    Span(Clamp(cols, 1, COLUMNS), Clamp(rows, 1, MAX_ROW_SPAN))
  }

  // ---- Layouts: where a sequence of widgets goes ----

  ghost predicate Occupied(placed: seq<Rect>, r: nat, c: nat) {
    exists i :: 0 <= i < |placed| && placed[i].Covers(r, c)
  }

  ghost predicate Free(placed: seq<Rect>, rect: Rect) {
    && rect.col + rect.span.cols <= COLUMNS
    && forall r: nat, c: nat :: rect.Covers(r, c) ==> !Occupied(placed, r, c)
  }

  predicate Earlier(row: nat, col: nat, r: nat, c: nat) {
    row < r || (row == r && col < c)
  }

  /** Where the next widget goes: the first free position, rows before columns. */
  ghost predicate IsFirstFit(placed: seq<Rect>, rect: Rect) {
    && Free(placed, rect)
    && forall r: nat, c: nat :: c < COLUMNS && Earlier(r, c, rect.row, rect.col) ==>
         !Free(placed, Rect(r, c, rect.span))
  }

  /** The layout of the widgets asked for, each placed against those before it. */
  ghost predicate IsLayout(spans: seq<(int, int)>, placed: seq<Rect>) {
    && |placed| == |spans|
    && forall i :: 0 <= i < |spans| ==>
         placed[i].span == ClampSpan(spans[i].0, spans[i].1) && IsFirstFit(placed[..i], placed[i])
  }

  function RowSpans(placed: seq<Rect>): nat {
    if placed == [] then 0 else RowSpans(placed[..|placed| - 1]) + placed[|placed| - 1].span.rows
  }

  /** The rows a layout reaches down to; a grid always has one. */
  function Height(placed: seq<Rect>): (h: nat)
    ensures h >= 1
  {
    if placed == [] then 1
    else
      var h := Height(placed[..|placed| - 1]);
      var last := placed[|placed| - 1];
      if last.row + last.span.rows > h then last.row + last.span.rows else h
  }

  ghost predicate Disjoint(placed: seq<Rect>) {
    forall i, j, r: nat, c: nat :: 0 <= i < j < |placed| && placed[i].Covers(r, c) ==> !placed[j].Covers(r, c)
  }

  ghost predicate InBounds(placed: seq<Rect>) {
    forall i :: 0 <= i < |placed| ==>
      placed[i].span.Valid() && placed[i].col + placed[i].span.cols <= COLUMNS
      && placed[i].row + placed[i].span.rows <= Height(placed)
  }

  lemma FirstFitIsUnique(placed: seq<Rect>, a: Rect, b: Rect)
    requires a.span == b.span && a.span.Valid()
    requires IsFirstFit(placed, a) && IsFirstFit(placed, b)
    ensures a == b
  {
    assert a == Rect(a.row, a.col, b.span);
    assert b == Rect(b.row, b.col, a.span);
  }

  lemma PrefixIsLayout(spans: seq<(int, int)>, placed: seq<Rect>)
    requires IsLayout(spans, placed) && spans != []
    ensures IsLayout(spans[..|spans| - 1], placed[..|placed| - 1])
  {
    var n := |spans| - 1;
    forall i | 0 <= i < n
      ensures IsFirstFit(placed[..n][..i], placed[..n][i])
    {
      assert placed[..n][..i] == placed[..i];
    }
  }

  /** The widgets asked for decide where each one goes. */
  lemma {:induction false} LayoutIsUnique(spans: seq<(int, int)>, a: seq<Rect>, b: seq<Rect>)
    requires IsLayout(spans, a) && IsLayout(spans, b)
    ensures a == b
    decreases |spans|
  {
    if spans != [] {
      var n := |spans| - 1;
      PrefixIsLayout(spans, a);
      PrefixIsLayout(spans, b);
      LayoutIsUnique(spans[..n], a[..n], b[..n]);
      FirstFitIsUnique(a[..n], a[n], b[n]);
      assert a == a[..n] + [a[n]] && b == b[..n] + [b[n]];
    }
  }

  lemma HeightBelow(placed: seq<Rect>, i: nat)
    requires i < |placed|
    ensures placed[i].row + placed[i].span.rows <= Height(placed)
  {
    if i < |placed| - 1 {
      HeightBelow(placed[..|placed| - 1], i);
    }
  }

  lemma BelowHeightIsFree(placed: seq<Rect>, r: nat, c: nat)
    requires Height(placed) <= r
    ensures !Occupied(placed, r, c)
  {
    if i :| 0 <= i < |placed| && placed[i].Covers(r, c) {
      HeightBelow(placed, i);
    }
  }

  /** A first fit starts no lower than the row below everything placed, or at the top when nothing is. */
  lemma FirstFitIsNear(placed: seq<Rect>, rect: Rect)
    requires rect.span.Valid() && IsFirstFit(placed, rect)
    ensures rect.row <= Height(placed)
    ensures placed == [] ==> rect.row == 0
  {
    var h := Height(placed);
    forall r: nat, c: nat | Rect(h, 0, rect.span).Covers(r, c)
      ensures !Occupied(placed, r, c)
    {
      BelowHeightIsFree(placed, r, c);
    }
    assert Free(placed, Rect(h, 0, rect.span));
    if placed == [] {
      assert Free(placed, Rect(0, 0, rect.span));
    }
  }

  /** Tiles stay on the grid, no two share a cell, and the grid is no taller than all the tiles
      stacked - one row when there are none. */
  lemma {:induction false} LayoutIsSound(spans: seq<(int, int)>, placed: seq<Rect>)
    requires IsLayout(spans, placed)
    ensures InBounds(placed) && Disjoint(placed)
    ensures Height(placed) <= if placed == [] then 1 else RowSpans(placed)
    decreases |spans|
  {
    if spans != [] {
      var n := |spans| - 1;
      PrefixIsLayout(spans, placed);
      LayoutIsSound(spans[..n], placed[..n]);
      FirstFitIsNear(placed[..n], placed[n]);
      LastIsDisjoint(placed);
      forall i | 0 <= i < |placed|
        ensures placed[i].span.Valid() && placed[i].col + placed[i].span.cols <= COLUMNS
                && placed[i].row + placed[i].span.rows <= Height(placed)
      {
        HeightBelow(placed, i);
        assert IsFirstFit(placed[..i], placed[i]);
      }
    }
  }

  lemma LastIsDisjoint(placed: seq<Rect>)
    requires placed != [] && Disjoint(placed[..|placed| - 1])
    requires Free(placed[..|placed| - 1], placed[|placed| - 1])
    ensures Disjoint(placed)
  {
    var n := |placed| - 1;
    forall i, j, r: nat, c: nat | 0 <= i < j < |placed| && placed[i].Covers(r, c)
      ensures !placed[j].Covers(r, c)
    {
      if j < n {
        assert placed[..n][i].Covers(r, c);
      } else if placed[n].Covers(r, c) {
        assert placed[..n][i].Covers(r, c);
        assert Occupied(placed[..n], r, c);
      }
    }
  }

  /** The scan starts at the top each time, so a widget goes before one already placed exactly when some
      position before that one is free for it: the packing is the dense one. */
  lemma BackfillsIff(placed: seq<Rect>, rect: Rect, earlier: Rect)
    requires IsFirstFit(placed, rect) && rect.span.Valid() && earlier in placed
    ensures Earlier(rect.row, rect.col, earlier.row, earlier.col)
            <==> exists r: nat, c: nat ::
                   c < COLUMNS && Earlier(r, c, earlier.row, earlier.col) && Free(placed, Rect(r, c, rect.span))
  {
    if Earlier(rect.row, rect.col, earlier.row, earlier.col) {
      assert Free(placed, Rect(rect.row, rect.col, rect.span));
    }
  }

  /** The smallest such layout: a later widget fills a gap left before an earlier one. */
  lemma LaterWidgetBackfills(placed: seq<Rect>)
    requires IsLayout([(3, 1), (2, 1), (1, 1)], placed)
    ensures placed == [Rect(0, 0, Span(3, 1)), Rect(1, 0, Span(2, 1)), Rect(0, 3, Span(1, 1))]
  {
    var a, b, c := Rect(0, 0, Span(3, 1)), Rect(1, 0, Span(2, 1)), Rect(0, 3, Span(1, 1));
    assert placed[..0] == [];
    FirstFitIsUnique([], placed[0], a) by {
      assert IsFirstFit([], a);
    }
    assert placed[..1] == [a];
    assert a.Covers(0, 2) && a.Covers(0, 0) && a.Covers(0, 1);
    FirstFitIsUnique([a], placed[1], b) by {
      FirstBlocked([a], b);
    }
    assert placed[..2] == [a, b];
    FirstFitIsUnique([a, b], placed[2], c) by {
      SecondBlocked(a, b, c);
    }
  }

  lemma FirstBlocked(placed: seq<Rect>, b: Rect)
    requires placed == [Rect(0, 0, Span(3, 1))] && b == Rect(1, 0, Span(2, 1))
    ensures IsFirstFit(placed, b)
  {
    var a := placed[0];
    forall c: nat | c < COLUMNS
      ensures !Free(placed, Rect(0, c, b.span))
    {
      if c <= 2 {
        assert a.Covers(0, c) && Occupied(placed, 0, c) && Rect(0, c, b.span).Covers(0, c);
      }
    }
  }

  lemma SecondBlocked(a: Rect, b: Rect, last: Rect)
    requires a == Rect(0, 0, Span(3, 1)) && b == Rect(1, 0, Span(2, 1)) && last == Rect(0, 3, Span(1, 1))
    ensures IsFirstFit([a, b], last)
  {
    forall c: nat | c < 3
      ensures !Free([a, b], Rect(0, c, last.span))
    {
      assert [a, b][0].Covers(0, c);
      assert Occupied([a, b], 0, c) && Rect(0, c, last.span).Covers(0, c);
    }
  }

  // ---- The cells ----

  predicate Taken(cells: seq<seq<bool>>, r: nat, c: nat) {
    r < |cells| && c < |cells[r]| && cells[r][c]
  }

  predicate Shaped(cells: seq<seq<bool>>) {
    forall r :: 0 <= r < |cells| ==> |cells[r]| == COLUMNS
  }

  /** The cells are those the tiles cover. */
  ghost predicate Shows(cells: seq<seq<bool>>, placed: seq<Rect>) {
    && Shaped(cells)
    && forall r: nat, c: nat :: Taken(cells, r, c) <==> c < COLUMNS && Occupied(placed, r, c)
  }

  /** The row descriptors of a grid of n rows. */
  function RowDescriptors(n: nat, height: int, terminator: int): (d: seq<int>)
    ensures |d| == n + 1 && d[n] == terminator
    ensures forall k :: 0 <= k < n ==> d[k] == height
  {
    seq(n, i => height) + [terminator]
  }

  class GridOccupancy {
    var cells: seq<seq<bool>>

    constructor ()
      ensures Shows(cells, []) && |cells| == 1
    {
      cells := [[false, false, false, false]];
    }

    method EnsureRowExists(row: nat)
      requires Shaped(cells)
      modifies this
      ensures Shaped(cells)
      ensures |cells| == if |old(cells)| <= row then row + 1 else |old(cells)|
      ensures forall r: nat, c: nat :: Taken(cells, r, c) <==> Taken(old(cells), r, c)
    {
      while |cells| <= row
        invariant Shaped(cells)
        invariant |old(cells)| <= |cells|
        invariant |cells| <= row + 1 || |cells| == |old(cells)|
        invariant forall r: nat, c: nat :: Taken(cells, r, c) <==> Taken(old(cells), r, c)
      {
        cells := cells + [[false, false, false, false]];
      }
    }

    method Fits(row: nat, col: nat, span: Span) returns (fits: bool)
      requires Shaped(cells)
      ensures fits <==> && col + span.cols <= COLUMNS
                        && forall r: nat, c: nat :: Rect(row, col, span).Covers(r, c) ==> !Taken(cells, r, c)
    {
      if col + span.cols > COLUMNS {
        return false;
      }
      var rect := Rect(row, col, span);
      var r := row;
      while r < row + span.rows
        invariant row <= r <= row + span.rows
        invariant forall rr: nat, cc: nat :: rect.Covers(rr, cc) && rr < r ==> !Taken(cells, rr, cc)
      {
        if r < |cells| {
          var c := col;
          while c < col + span.cols
            invariant col <= c <= col + span.cols
            invariant forall cc: nat :: col <= cc < c ==> !Taken(cells, r, cc)
          {
            if cells[r][c] {
              assert rect.Covers(r, c) && Taken(cells, r, c);
              return false;
            }
            c := c + 1;
          }
        }
        r := r + 1;
      }
      return true;
    }

    method MarkOccupied(rect: Rect)
      requires Shaped(cells) && rect.span.Valid() && rect.col + rect.span.cols <= COLUMNS
      modifies this
      ensures Shaped(cells)
      ensures |cells| == if |old(cells)| <= rect.row + rect.span.rows - 1 then rect.row + rect.span.rows
                         else |old(cells)|
      ensures forall r: nat, c: nat :: Taken(cells, r, c) <==> Taken(old(cells), r, c) || rect.Covers(r, c)
    {
      EnsureRowExists(rect.row + rect.span.rows - 1);
      var r := rect.row;
      while r < rect.row + rect.span.rows
        invariant rect.row <= r <= rect.row + rect.span.rows <= |cells|
        invariant Shaped(cells)
        invariant |cells| == if |old(cells)| <= rect.row + rect.span.rows - 1 then rect.row + rect.span.rows
                             else |old(cells)|
        invariant forall rr: nat, cc: nat :: Taken(cells, rr, cc) <==>
                                               (Taken(old(cells), rr, cc) || (rect.Covers(rr, cc) && rr < r))
      {
        MarkRow(r, rect.col, rect.col + rect.span.cols);
        r := r + 1;
      }
    }

    method MarkRow(r: nat, from: nat, to: nat)
      requires Shaped(cells) && r < |cells| && from <= to <= COLUMNS
      modifies this
      ensures Shaped(cells) && |cells| == |old(cells)|
      ensures forall rr: nat, cc: nat :: Taken(cells, rr, cc) <==>
                                           (Taken(old(cells), rr, cc) || (rr == r && from <= cc < to))
    {
      var c := from;
      while c < to
        invariant from <= c <= to
        invariant Shaped(cells) && |cells| == |old(cells)|
        invariant forall rr: nat, cc: nat :: Taken(cells, rr, cc) <==>
                                               (Taken(old(cells), rr, cc) || (rr == r && from <= cc < c))
      {
        ghost var was := cells;
        cells := cells[r := cells[r][c := true]];
        assert forall rr: nat, cc: nat :: Taken(cells, rr, cc) <==> Taken(was, rr, cc) || (rr == r && cc == c);
        c := c + 1;
      }
    }

    /** Places a tile: the cells then show it beside the ones before. */
    method Occupy(rect: Rect, ghost placed: seq<Rect>)
      requires Shows(cells, placed) && rect.span.Valid() && rect.col + rect.span.cols <= COLUMNS
      modifies this
      ensures Shows(cells, placed + [rect])
      ensures |cells| == if |old(cells)| <= rect.row + rect.span.rows - 1 then rect.row + rect.span.rows
                         else |old(cells)|
    {
      MarkOccupied(rect);
      MarkedShows(old(cells), cells, placed, rect);
    }

    /** The scan ends for every span asked for: below the last row everything is free. */
    method FindPlacement(cols: int, rows: int, ghost placed: seq<Rect>) returns (row: nat, col: nat)
      requires Shows(cells, placed)
      ensures IsFirstFit(placed, Rect(row, col, ClampSpan(cols, rows)))
      ensures row <= |cells|
    {
      var span := ClampSpan(cols, rows);
      row, col := 0, 0;
      var fits := Fits(row, col, span);
      while !fits
        invariant col < COLUMNS && row <= |cells| && (row == |cells| ==> col == 0)
        invariant fits <==> Free(placed, Rect(row, col, span))
        invariant row == |cells| ==> fits
        invariant forall r: nat, c: nat :: c < COLUMNS && Earlier(r, c, row, col) ==> !Free(placed, Rect(r, c, span))
        decreases |cells| - row, COLUMNS - col, !fits
      {
        col := col + 1;
        if col >= COLUMNS {
          col := 0;
          row := row + 1;
        }
        fits := Fits(row, col, span);
      }
    }
  }

  lemma MarkedShows(before: seq<seq<bool>>, after: seq<seq<bool>>, placed: seq<Rect>, rect: Rect)
    requires Shows(before, placed) && Shaped(after) && rect.col + rect.span.cols <= COLUMNS
    requires forall r: nat, c: nat :: Taken(after, r, c) <==> Taken(before, r, c) || rect.Covers(r, c)
    ensures Shows(after, placed + [rect])
  {
    forall r: nat, c: nat
      ensures Occupied(placed + [rect], r, c) <==> Occupied(placed, r, c) || rect.Covers(r, c)
    {
      if i :| 0 <= i < |placed| && placed[i].Covers(r, c) {
        assert (placed + [rect])[i].Covers(r, c);
      }
      if rect.Covers(r, c) {
        assert (placed + [rect])[|placed|].Covers(r, c);
      }
    }
  }

  method GrowRowDescriptorArray(rowDsc: seq<int>, row: nat, height: int, terminator: int, ghost n: nat)
    returns (grown: seq<int>)
    requires rowDsc == RowDescriptors(n, height, terminator)
    ensures grown == RowDescriptors(if n <= row then row + 1 else n, height, terminator)
  {
    grown := rowDsc;
    if row < |grown| - 1 {
      return;
    }
    while |grown| - 1 <= row
      invariant n <= |grown| - 1
      invariant |grown| - 1 <= row + 1
      invariant grown == RowDescriptors(|grown| - 1, height, terminator)
    {
      grown := grown[|grown| - 1 := height] + [terminator];
    }
  }

  class DashboardGrid {
    const terminator: int
    const occupancy: GridOccupancy
    var rowDsc: seq<int>
    ghost var spans: seq<(int, int)>
    ghost var placed: seq<Rect>

    /** `spans` is what was asked for, `placed` where it went; the cells, the row count and the row
        descriptors all agree with it. */
    ghost predicate Valid()
      reads this, occupancy
    {
      && IsLayout(spans, placed)
      && Shows(occupancy.cells, placed)
      && |occupancy.cells| == Height(placed)
      && rowDsc == RowDescriptors(Height(placed), ROW_HEIGHT, terminator)
    }

    constructor (terminator: int)
      ensures Valid() && fresh(occupancy) && spans == []
    {
      this.terminator := terminator;
      occupancy := new GridOccupancy();
      rowDsc := [ROW_HEIGHT, terminator];
      spans, placed := [], [];
    }

    method AddWidget(cols: int, rows: int) returns (row: nat, col: nat)
      requires Valid()
      modifies this, occupancy
      ensures Valid()
      ensures spans == old(spans) + [(cols, rows)]
      ensures placed == old(placed) + [Rect(row, col, ClampSpan(cols, rows))]
    {
      var span := ClampSpan(cols, rows);
      row, col := occupancy.FindPlacement(span.cols, span.rows, placed);
      var rect := Rect(row, col, span);
      LayoutGrows(spans, placed, (cols, rows), rect);
      occupancy.Occupy(rect, placed);
      rowDsc := GrowRowDescriptorArray(rowDsc, row + span.rows - 1, ROW_HEIGHT, terminator, Height(placed));
      spans := spans + [(cols, rows)];
      placed := placed + [rect];
    }
  }

  lemma LayoutGrows(spans: seq<(int, int)>, placed: seq<Rect>, asked: (int, int), rect: Rect)
    requires IsLayout(spans, placed)
    requires rect.span == ClampSpan(asked.0, asked.1) && IsFirstFit(placed, rect)
    ensures IsLayout(spans + [asked], placed + [rect]) && rect.col + rect.span.cols <= COLUMNS
    ensures Height(placed + [rect]) == if Height(placed) <= rect.row + rect.span.rows - 1
                                       then rect.row + rect.span.rows else Height(placed)
  {
    var more := placed + [rect];
    assert more[..|placed|] == placed;
    forall i | 0 <= i < |placed|
      ensures IsFirstFit(more[..i], more[i])
    {
      assert more[..i] == placed[..i];
    }
  }
}
