/** The panel button whose popup shows the tray icons in a grid of at most
    four columns (host.js). Buttons are opaque handles; actor parenting,
    styling and relayout are not modelled. */
module Host {
  import opened Utils
  import opened Seqs

  /** An item button's actor, as handed over by the watcher. */
  type Handle = nat

  const MaxCols: nat := 4
  const Pad: int := 8
  const Spacing: int := 6
  const ExtraWidth: int := 2
  const ExtraHeight: int := 10

  /** What `_syncPopupSize` computes: the grid shape, the size of the box
      holding the rows, and the size of the popup. */
  datatype Geometry = Geometry(cols: nat, rows: nat, gridWidth: int, gridHeight: int, width: int, height: int)

  /** `Math.ceil(a / b)` for a non-negative `a` and a positive `b`. */
  function CeilDiv(a: nat, b: nat): (q: nat)
    requires b > 0
    ensures q * b >= a && (q - 1) * b < a
  {
    (a + b - 1) / b
  }

  /** The grid for `count` buttons: at least one cell, at most four
      columns, enough rows for every button and no empty trailing row; the
      grid box is `cols` cells wide with `Spacing` between neighbours, and the
      popup adds the padding on both sides and a fixed slack. */
  function PopupGeometry(count: nat, cell: int): (g: Geometry)
    ensures 1 <= g.cols <= MaxCols && 1 <= g.rows
    ensures g.cols * g.rows >= (if count == 0 then 1 else count)
    ensures g.cols * (g.rows - 1) < (if count == 0 then 1 else count)
    ensures count <= MaxCols ==> g.rows == 1 && g.cols == (if count == 0 then 1 else count)
    ensures count > MaxCols ==> g.cols == MaxCols
    ensures g.gridWidth == g.cols * cell + (g.cols - 1) * Spacing
    ensures g.gridHeight == g.rows * cell + (g.rows - 1) * Spacing
    ensures g.width == 2 * Pad + g.gridWidth + ExtraWidth && g.height == 2 * Pad + g.gridHeight + ExtraHeight
  {
    var n := if count == 0 then 1 else count;
    var cols := if n < MaxCols then n else MaxCols;
    var q := CeilDiv(n, cols);
    var rows := if q < 1 then 1 else q;
    var gridW := cols * cell + (cols - 1) * Spacing;
    var gridH := rows * cell + (rows - 1) * Spacing;
    Geometry(cols, rows, gridW, gridH, Pad * 2 + gridW + ExtraWidth, Pad * 2 + gridH + ExtraHeight)
  }

  lemma MulMonotone(a: int, b: int, c: int)
    requires a <= b && c >= 0
    ensures a * c <= b * c
  {
    assert b * c - a * c == (b - a) * c;
  }

  /** Adding a button never makes the popup smaller. */
  lemma PopupGrowsWithCount(count: nat, cell: int)
    requires cell >= 0
    ensures PopupGeometry(count, cell).width <= PopupGeometry(count + 1, cell).width
    ensures PopupGeometry(count, cell).height <= PopupGeometry(count + 1, cell).height
  {
    var g, h := PopupGeometry(count, cell), PopupGeometry(count + 1, cell);
    if count >= MaxCols {
      assert g.cols == MaxCols && h.cols == MaxCols;
      assert g.rows == (count + MaxCols - 1) / MaxCols && h.rows == (count + MaxCols) / MaxCols;
      assert g.rows <= h.rows;
    } else {
      assert g.rows == 1 && h.rows == 1;
    }
    MulMonotone(g.cols, h.cols, cell);
    MulMonotone(g.rows, h.rows, cell);
  }

  /** The rows `_rebuildRows` lays out: consecutive runs of at most four
      buttons, in list order. */
  function Chunks(s: seq<Handle>): (r: seq<seq<Handle>>)
    ensures |r| == (|s| + MaxCols - 1) / MaxCols
    decreases |s|
  {
    if |s| <= MaxCols then (if s == [] then [] else [s])
    else [s[..MaxCols]] + Chunks(s[MaxCols..])
  }

  /** Row `i` holds the buttons at positions 4i to 4i+3 (fewer in the last
      row), so the rows concatenate back to the button list. */
  lemma {:induction false} ChunksAt(s: seq<Handle>, i: nat)
    requires i < |Chunks(s)|
    ensures Chunks(s)[i] == s[MaxCols * i .. if MaxCols * i + MaxCols < |s| then MaxCols * i + MaxCols else |s|]
    ensures 1 <= |Chunks(s)[i]| <= MaxCols
    decreases |s|
  {
    if |s| > MaxCols && i > 0 {
      ChunksAt(s[MaxCols..], i - 1);
      assert s[MaxCols..][MaxCols * (i - 1) .. if MaxCols * (i - 1) + MaxCols < |s| - MaxCols then MaxCols * (i - 1) + MaxCols else |s| - MaxCols]
          == s[MaxCols * i .. if MaxCols * i + MaxCols < |s| then MaxCols * i + MaxCols else |s|];
    }
  }

  /** Appending one button either opens a new row (at a multiple of four)
      or extends the last row: the step `_rebuildRows` takes per button. */
  lemma {:induction false} ChunksAppend(s: seq<Handle>, b: Handle)
    ensures |s| % MaxCols == 0 ==> Chunks(s + [b]) == Chunks(s) + [[b]]
    ensures |s| % MaxCols != 0 ==>
              |Chunks(s)| > 0 &&
              Chunks(s + [b]) == Chunks(s)[..|Chunks(s)| - 1] + [Chunks(s)[|Chunks(s)| - 1] + [b]]
    decreases |s|
  {
    if |s| < MaxCols {
      if s == [] {
        assert s + [b] == [b];
      }
    } else if |s| == MaxCols {
      assert (s + [b])[..MaxCols] == s;
      assert (s + [b])[MaxCols..] == [b];
    } else {
      var t := s[MaxCols..];
      assert (s + [b])[..MaxCols] == s[..MaxCols];
      assert (s + [b])[MaxCols..] == t + [b];
      ChunksAppend(t, b);
      assert |t| % MaxCols == |s| % MaxCols;
    }
  }

  /** For a non-empty list the number of rows laid out equals the row count
      the popup is sized for. */
  lemma RowsMatchGeometry(s: seq<Handle>, cell: int)
    requires |s| > 0
    ensures |Chunks(s)| == PopupGeometry(|s|, cell).rows
  {
    var g := PopupGeometry(|s|, cell);
    if |s| > MaxCols {
      assert g.cols == MaxCols;
      assert g.rows == (|s| + MaxCols - 1) / MaxCols;
    }
  }

  class PopupGridHost {
    /** CELL_SIZE, the side of one button in pixels. */
    const cell: int
    var buttons: seq<Handle>
    /** The children of the rows box: one sequence of buttons per row. */
    var rows: seq<seq<Handle>>
    /** The sizes last applied to the rows box and the popup. */
    var geometry: Geometry

    ghost predicate Valid()
      reads this
    {
      NoDup(buttons) && rows == Chunks(buttons) && geometry == PopupGeometry(|buttons|, cell)
    }

    constructor (cellSize: int)
      ensures Valid()
      ensures cell == cellSize && buttons == [] && rows == []
      ensures geometry == PopupGeometry(0, cellSize)
    {
      cell := cellSize;
      buttons := [];
      rows := [];
      geometry := PopupGeometry(0, cellSize);
    }

    /** `_syncPopupSize`: sizes the grid and the popup for the current count. */
    method SyncPopupSize()
      modifies this`geometry
      ensures geometry == PopupGeometry(|buttons|, cell)
    {
      var count := |buttons|;
      var n := if count == 0 then 1 else count;
      var cols := if n < MaxCols then n else MaxCols;
      var q := (n + cols - 1) / cols;
      var rowCount := if q < 1 then 1 else q;
      var gridW := cols * cell + (cols - 1) * Spacing;
      var gridH := rowCount * cell + (rowCount - 1) * Spacing;
      geometry := Geometry(cols, rowCount, gridW, gridH, Pad * 2 + gridW + ExtraWidth, Pad * 2 + gridH + ExtraHeight);
    }

    /** `_rebuildRows`: empties the rows box, then walks the buttons in
        order, opening a new row at every index divisible by four. */
    method RebuildRows()
      modifies this`rows, this`geometry
      ensures rows == Chunks(buttons)
      ensures geometry == PopupGeometry(|buttons|, cell)
    {
      rows := [];
      for idx := 0 to |buttons|
        invariant rows == Chunks(buttons[..idx])
      {
        var btn := buttons[idx];
        ChunksAppend(buttons[..idx], btn);
        if idx % MaxCols == 0 {
          rows := rows + [[btn]];
        } else {
          rows := rows[..|rows| - 1] + [rows[|rows| - 1] + [btn]];
        }
        assert buttons[..idx + 1] == buttons[..idx] + [btn];
      }
      assert buttons[..|buttons|] == buttons;
      SyncPopupSize();
    }

    /** `addButton`: nothing for a missing button; otherwise appends it
        unless already present, and lays the rows out again. */
    method AddButton(button: Option<Handle>)
      requires Valid()
      modifies this
      ensures Valid()
      ensures button.None? ==> buttons == old(buttons) && rows == old(rows) && geometry == old(geometry)
      ensures button.Some? ==>
                buttons == if button.value in old(buttons) then old(buttons) else old(buttons) + [button.value]
    {
      if button.None? {
        return;
      }
      var b := button.value;
      if b !in buttons {
        buttons := buttons + [b];
      }
      RebuildRows();
    }

    /** `removeButton`: nothing for a missing button; otherwise drops it if
        present, keeping the others in order, and lays the rows out again. */
    method RemoveButton(button: Option<Handle>)
      requires Valid()
      modifies this
      ensures Valid()
      ensures button.None? ==> buttons == old(buttons) && rows == old(rows) && geometry == old(geometry)
      ensures button.Some? ==> buttons == RemoveFirst(old(buttons), button.value)
      ensures button.Some? ==> button.value !in buttons
    {
      if button.None? {
        return;
      }
      var b := button.value;
      var idx := IndexOf(buttons, b);
      RemoveFirstNoDup(buttons, b);
      if idx != -1 {
        buttons := buttons[..idx] + buttons[idx + 1..];
      }
      RebuildRows();
    }
  }
}
