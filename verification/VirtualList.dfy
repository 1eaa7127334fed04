/** A long list shown through a small pool of recycled buttons (src/ui/virtual_list.cpp).

    A button keeps what the screen shows of it: hidden, label, position and the row stored as its
    user data. `labelAt` is a function of the row alone, as the list's contract with its caller
    asks; the list's position on screen is a parameter of every rebind. */
module VirtualLists {
  import opened Wrappers
  import opened VirtualListWindow

  const OVERSCAN := 2
  const ROW_GAP := 12
  const REMOTE_BUTTON_HEIGHT := 110
  const ROW_PITCH := REMOTE_BUTTON_HEIGHT + ROW_GAP

  datatype Look = Look(text: string, y: int, row: nat)

  class Button {
    var hidden: bool
    var text: string
    var y: int
    var row: nat
    // How often it has been drawn.
    ghost var draws: nat

    constructor ()
      ensures hidden && draws == 0
    {
      hidden, text, y, row := true, "", 0, 0;
      draws := 0;
    }

    method Draw(text: string, y: int, row: nat)
      modifies this`text, this`y, this`row, this`draws
      ensures this.text == text && this.y == y && this.row == row && draws == old(draws) + 1
    {
      this.text, this.y, this.row := text, y, row;
      draws := draws + 1;
    }

    function Shows(): Option<Look>
      reads this
    {
      if hidden then None else Some(Look(text, y, row))
    }
  }

  /** What a row looks like when it is drawn. */
  function RowLook(row: nat, labelAt: nat -> string): Look {
    Look(labelAt(row), row * ROW_PITCH, row)
  }

  /** What a render of the window from nothing puts in a slot. */
  function FullRender(slot: nat, poolSize: nat, window: VisibleRows, labelAt: nat -> string): Option<Look> {
    match RowForSlot(slot, poolSize, window)
    case None => None
    case Some(row) => Some(RowLook(row, labelAt))
  }

  /** The buttons in sight are one per row of the window, each drawn as that row, and nothing else. */
  ghost predicate ShowsExactly(looks: seq<Option<Look>>, window: VisibleRows, labelAt: nat -> string) {
    && (forall k :: 0 <= k < |looks| && looks[k].Some? ==>
          window.Has(looks[k].value.row)
          && looks[k].value == Look(labelAt(looks[k].value.row), looks[k].value.row * ROW_PITCH, looks[k].value.row))
    && (forall row: nat :: window.Has(row) ==> Shown(looks, row))
    && (forall j, k :: 0 <= j < k < |looks| && looks[j].Some? && looks[k].Some? ==>
          looks[j].value.row != looks[k].value.row)
  }

  ghost predicate Shown(looks: seq<Option<Look>>, row: nat) {
    exists k :: 0 <= k < |looks| && looks[k].Some? && looks[k].value.row == row
  }

  /** A full render over a pool that is large enough shows exactly the window. */
  lemma FullRenderShowsExactly(looks: seq<Option<Look>>, poolSize: nat, window: VisibleRows, labelAt: nat -> string)
    requires window.count <= poolSize <= |looks|
    requires forall k :: 0 <= k < |looks| ==> looks[k] == FullRender(k, poolSize, window, labelAt)
    ensures ShowsExactly(looks, window, labelAt)
  {
    if window.count > 0 {
      forall k | 0 <= k < |looks| && looks[k].Some?
        ensures window.Has(looks[k].value.row) && looks[k].value.row % poolSize == k
                && looks[k].value == RowLook(looks[k].value.row, labelAt)
      {
        SlotShowsItsRow(k, poolSize, window, looks[k].value.row);
      }
      forall row: nat | window.Has(row) ensures Shown(looks, row) {
        SlotShowsItsRow(row % poolSize, poolSize, window, row);
        assert looks[row % poolSize] == Some(RowLook(row, labelAt));
      }
    }
  }

  class VirtualList {
    const viewHeight: int
    var pool: seq<Button>
    var slotRow: seq<Option<nat>>
    var count: nat
    var labelAt: nat -> string

    /** The pool is made of different buttons, with room for the rows of any window, and every row
        the cache remembers is what its button holds, in sight. */
    ghost predicate Valid()
      reads this, pool
    {
      && Wired()
      && MinPool() <= |pool|
      && forall k :: 0 <= k < |pool| ==> Cached(k)
    }

    ghost predicate Wired()
      reads this
    {
      && |slotRow| == |pool|
      && forall j, k :: 0 <= j < k < |pool| ==> pool[j] != pool[k]
    }

    function MinPool(): nat
      reads this
    {
      var most := MaxVisibleRows(viewHeight, ROW_PITCH, OVERSCAN);
      if count < most then count else most
    }

    ghost predicate Cached(k: nat)
      requires k < |pool| && |slotRow| == |pool|
      reads this, pool
    {
      slotRow[k].Some? ==> slotRow[k].value < count && Drawn(pool[k], slotRow[k].value)
    }

    ghost predicate Drawn(button: Button, row: nat)
      reads this, button
    {
      button.text == labelAt(row) && button.y == row * ROW_PITCH && button.row == row
    }

    ghost function Looks(): seq<Option<Look>>
      reads this, pool
    {
      seq(|pool|, k requires 0 <= k < |pool| reads this, pool => pool[k].Shows())
    }

    /** The window for a list whose top edge is at `listTop`; a list under a hidden ancestor has no
        position yet and is bound from its top. */
    function Window(listTop: int, ancestorHidden: bool): VisibleRows
      reads this
    {
      if count == 0 || |pool| == 0 then NO_ROWS
      else ComputeVisibleRows(if ancestorHidden then 0 else listTop, viewHeight, ROW_PITCH, count, OVERSCAN)
    }

    /** Every row that lies on screen is shown, a list under a hidden ancestor counting as not scrolled. */
    ghost predicate ScreenIsShown(listTop: int, ancestorHidden: bool)
      reads this, pool
    {
      viewHeight > 0 ==>
        forall row: nat :: row < count && OnScreen(row, if ancestorHidden then 0 else listTop, viewHeight, ROW_PITCH)
                           ==> Shown(Looks(), row)
    }

    constructor (viewHeight: int)
      ensures Valid() && count == 0 && Looks() == []
    {
      this.viewHeight := viewHeight;
      pool, slotRow, count := [], [], 0;
      labelAt := _ => "";
    }

    method SetItems(count: nat, labelAt: nat -> string, listTop: int, ancestorHidden: bool)
      requires Valid()
      modifies this, pool
      ensures Valid() && this.count == count && this.labelAt == labelAt
      ensures fresh(set b | b in pool && b !in old(pool))
      ensures ShowsExactly(Looks(), Window(listTop, ancestorHidden), labelAt)
      ensures ScreenIsShown(listTop, ancestorHidden)
    {
      this.count := count;
      this.labelAt := labelAt;
      EnsurePool();
      Rebind(true, listTop, ancestorHidden);
    }

    method Clear(listTop: int, ancestorHidden: bool)
      requires Valid()
      modifies this, pool
      ensures Valid() && pool == old(pool) && count == 0
      ensures forall k :: 0 <= k < |pool| ==> pool[k].hidden
    {
      count := 0;
      labelAt := _ => "";
      Rebind(true, listTop, ancestorHidden);
      assert forall k :: 0 <= k < |pool| ==> Looks()[k] == pool[k].Shows();
    }

    /** Refresh() and every scroll: only the slots whose row changed are redrawn. */
    method Refresh(listTop: int, ancestorHidden: bool)
      requires Valid()
      modifies this`slotRow, pool
      ensures Valid() && pool == old(pool)
      ensures ShowsExactly(Looks(), Window(listTop, ancestorHidden), labelAt)
      ensures ScreenIsShown(listTop, ancestorHidden)
      ensures forall k :: 0 <= k < |pool| ==>
                && slotRow[k] == RowForSlot(k, PoolSize(), Window(listTop, ancestorHidden))
                && pool[k].draws == old(pool[k].draws)
                                    + if slotRow[k].Some? && slotRow[k] != old(slotRow[k]) then 1 else 0
    {
      Rebind(false, listTop, ancestorHidden);
    }

    method EnsurePool()
      requires Wired()
      modifies this`pool, this`slotRow
      ensures Valid() && |old(pool)| <= |pool| && pool[..|old(pool)|] == old(pool)
      ensures fresh(set b | b in pool[|old(pool)|..])
      ensures |pool| == if |old(pool)| < MinPool() then MinPool() else |old(pool)|
      ensures forall k :: 0 <= k < |pool| ==> slotRow[k] == None
    {
      var wanted := MinPool();
      while |pool| < wanted
        invariant |old(pool)| <= |pool| && pool[..|old(pool)|] == old(pool)
        invariant |pool| <= wanted || |pool| == |old(pool)|
        invariant forall k :: |old(pool)| <= k < |pool| ==> fresh(pool[k])
        invariant forall j, k :: 0 <= j < k < |pool| ==> pool[j] != pool[k]
      {
        var button := new Button();
        pool := pool + [button];
      }
      slotRow := seq(|pool|, _ => None);
    }

    /** A slot is redrawn when forced to show a row, or when its row is not the one it holds. */
    static predicate Redraws(was: Option<nat>, row: Option<nat>, force: bool) {
      row.Some? && (force || was != row)
    }

    function PoolSize(): nat
      reads this
    {
      if |pool| < count then |pool| else count
    }

    ghost predicate DrawnAsNeeded(k: nat, row: Option<nat>, was: Option<nat>, draws: nat, force: bool)
      requires k < |pool| && |slotRow| == |pool|
      reads this, pool
    {
      slotRow[k] == row && pool[k].draws == draws + if Redraws(was, row, force) then 1 else 0
    }

    /** Gives a slot its row, redrawing the button only when it must. */
    method Bind(slot: nat, row: Option<nat>, force: bool)
      requires Wired() && slot < |pool| && (row.Some? ==> row.value < count)
      requires !force ==> Cached(slot)
      modifies this`slotRow, pool[slot]
      ensures slotRow == old(slotRow)[slot := row] && Cached(slot)
      ensures pool[slot].Shows() == if row.None? then None else Some(RowLook(row.value, labelAt))
      ensures pool[slot].draws == old(pool[slot].draws) + if Redraws(old(slotRow[slot]), row, force) then 1 else 0
    {
      var button := pool[slot];
      if row.None? {
        button.hidden := true;
        slotRow := slotRow[slot := None];
        return;
      }
      if force || slotRow[slot] != row {
        button.Draw(labelAt(row.value), row.value * ROW_PITCH, row.value);
        slotRow := slotRow[slot := row];
      }
      button.hidden := false;
    }

    lemma WindowShowsScreen(listTop: int, ancestorHidden: bool)
      requires MinPool() <= |pool| && ShowsExactly(Looks(), Window(listTop, ancestorHidden), labelAt)
      ensures ScreenIsShown(listTop, ancestorHidden)
    {
      var top := if ancestorHidden then 0 else listTop;
      forall row: nat | viewHeight > 0 && row < count && OnScreen(row, top, viewHeight, ROW_PITCH)
        ensures Shown(Looks(), row)
      {
        WindowCoversScreen(top, viewHeight, ROW_PITCH, count, OVERSCAN, row);
      }
    }

    method Rebind(force: bool, listTop: int, ancestorHidden: bool)
      requires Wired() && MinPool() <= |pool|
      requires !force ==> forall k :: 0 <= k < |pool| ==> Cached(k)
      modifies this`slotRow, pool
      ensures Valid()
      ensures ShowsExactly(Looks(), Window(listTop, ancestorHidden), labelAt)
      ensures ScreenIsShown(listTop, ancestorHidden)
      ensures forall k :: 0 <= k < |pool| ==>
                && slotRow[k] == RowForSlot(k, PoolSize(), Window(listTop, ancestorHidden))
                && pool[k].draws == old(pool[k].draws) + if Redraws(old(slotRow[k]), slotRow[k], force) then 1 else 0
    {
      var rows := NO_ROWS;
      var poolSize := PoolSize();
      if count != 0 && poolSize != 0 {
        var top := 0;
        if !ancestorHidden {
          top := listTop;
        }
        rows := ComputeVisibleRows(top, viewHeight, ROW_PITCH, count, OVERSCAN);
        WindowFits(top, viewHeight, ROW_PITCH, count, OVERSCAN);
      }
      BindAll(poolSize, rows, force);
      FullRenderShowsExactly(Looks(), poolSize, rows, labelAt);
      WindowShowsScreen(listTop, ancestorHidden);
    }

    /** The loop over the slots. */
    method BindAll(poolSize: nat, rows: VisibleRows, force: bool)
      requires Wired() && rows.first + rows.count <= count && rows.count <= poolSize
      requires !force ==> forall k :: 0 <= k < |pool| ==> Cached(k)
      modifies this`slotRow, pool
      ensures Wired()
      ensures forall k :: 0 <= k < |pool| ==> Cached(k) && pool[k].Shows() == FullRender(k, poolSize, rows, labelAt)
      ensures forall k :: 0 <= k < |pool| ==>
                && slotRow[k] == RowForSlot(k, poolSize, rows)
                && pool[k].draws == old(pool[k].draws) + if Redraws(old(slotRow[k]), slotRow[k], force) then 1 else 0
    {
      var slot := 0;
      while slot < |pool|
        invariant 0 <= slot <= |pool| && Wired()
        invariant forall k :: 0 <= k < slot ==> Cached(k) && pool[k].Shows() == FullRender(k, poolSize, rows, labelAt)
        invariant forall k :: slot <= k < |pool| ==> slotRow[k] == old(slotRow[k]) && (!force ==> Cached(k))
        invariant forall k :: slot <= k < |pool| ==> pool[k].draws == old(pool[k].draws)
        invariant forall k :: 0 <= k < slot ==>
                    DrawnAsNeeded(k, RowForSlot(k, poolSize, rows), old(slotRow[k]), old(pool[k].draws), force)
      {
        assert forall k :: 0 <= k < |pool| && k != slot ==> pool[k] != pool[slot];
        label before:
        Bind(slot, RowForSlot(slot, poolSize, rows), force);
        assert pool[slot].Shows() == FullRender(slot, poolSize, rows, labelAt);
        forall k | 0 <= k < |pool| && k != slot
          ensures old@before(Cached(k)) ==> Cached(k)
          ensures pool[k].Shows() == old@before(pool[k].Shows()) && slotRow[k] == old@before(slotRow[k])
          ensures pool[k].draws == old@before(pool[k].draws)
        {
          assert pool[k] != pool[slot] && unchanged@before(pool[k]);
        }
        slot := slot + 1;
      }
    }
  }
}
