/**
 The 80 x 25 console (vga.c) as a window on a terminal with unboundedly many
 rows.
 */
module Terminal {

  type Char = bv8

  /** A cell of video memory: `vga_entry` packs these two bytes into 16 bits. */
  datatype Cell = Cell(ch: Char, color: bv8)

  const NEWLINE: Char := 10
  const RETURN: Char := 13

  /** A blank cell, light grey on black. */
  const BLANK := Cell(32, 7)

  // ---------------------------------------------------------------- the code's state

  /** Video memory, row by row, and the cursor. Scrolling reads row 25, so memory has at least 26 rows. */
  datatype Screen = Screen(cells: seq<Cell>, row: nat, col: nat)

  predicate Fits(s: Screen) {
    |s.cells| >= 2080 && s.row < 25 && s.col < 80
  }

  /** `terminal_shift_buffer`: rows 1 to 25 move up by one; row 25 stays as it is. */
  function Shifted(cells: seq<Cell>): (r: seq<Cell>)
    requires |cells| >= 2080
    ensures |r| == |cells|
    ensures forall i | 0 <= i < |cells| :: r[i] == if i < 2000 then cells[i + 80] else cells[i]
  {
    cells[80..2080] + cells[2000..]
  }

  function NextRow(s: Screen): Screen
    requires |s.cells| >= 2080
  {
    if s.row + 1 == 25 then Screen(Shifted(s.cells), s.row, 0) else Screen(s.cells, s.row + 1, 0)
  }

  /** `terminal_putchar_color` */
  function Put(s: Screen, c: Char, color: bv8): (r: Screen)
    requires Fits(s)
    ensures Fits(r) && |r.cells| == |s.cells|
  {
    if c == NEWLINE then NextRow(s)
    else if c == RETURN then s.(col := 0)
    else
      var s1 := s.(cells := s.cells[80 * s.row + s.col := Cell(c, color)]);
      if s.col + 1 == 80 then NextRow(s1) else s1.(col := s.col + 1)
  }

  /** `terminal_write` */
  function Write(s: Screen, data: seq<Char>, color: bv8): (r: Screen)
    requires Fits(s)
    ensures Fits(r) && |r.cells| == |s.cells|
  {
    if data == [] then s else Put(Write(s, data[..|data| - 1], color), data[|data| - 1], color)
  }

  lemma {:induction false} WriteConcat(s: Screen, a: seq<Char>, b: seq<Char>, color: bv8)
    requires Fits(s)
    ensures Write(s, a + b, color) == Write(Write(s, a, color), b, color)
  {
    if b == [] {
      assert a + b == a;
    } else {
      WriteConcat(s, a, b[..|b| - 1], color);
      assert (a + b)[..|a + b| - 1] == a + b[..|b| - 1];
    }
  }

  // ---------------------------------------------------------------- the unbounded terminal

  /** A sheet without bottom: what was printed where, and the cursor. */
  datatype Sheet = Sheet(ink: map<(nat, nat), Cell>, row: nat, col: nat)

  /** Line feed (10) starts the next row, carriage return (13) the same one; anything else is ink. */
  function SheetPut(t: Sheet, c: Char, color: bv8): Sheet {
    if c == 10 then t.(row := t.row + 1, col := 0)
    else if c == 13 then t.(col := 0)
    else
      var ink := t.ink[(t.row, t.col) := Cell(c, color)];
      if t.col + 1 == 80 then Sheet(ink, t.row + 1, 0) else Sheet(ink, t.row, t.col + 1)
  }

  function SheetWrite(t: Sheet, data: seq<Char>, color: bv8): Sheet {
    if data == [] then t else SheetPut(SheetWrite(t, data[..|data| - 1], color), data[|data| - 1], color)
  }

  /** The paper: light grey blanks on black on the first screen, and below it whatever the off-screen row 25 holds. */
  function At(t: Sheet, off: seq<Cell>, row: nat, col: nat): Cell
    requires |off| == 80 && col < 80
  {
    if (row, col) in t.ink then t.ink[(row, col)] else if row < 25 then Cell(32, 7) else off[col]
  }

  function Scrolls(t: Sheet): nat { if t.row < 25 then 0 else t.row - 24 }

  ghost predicate CellShown(s: Screen, t: Sheet, off: seq<Cell>, y: nat, x: nat)
    requires |s.cells| >= 2080 && |off| == 80 && y < 25 && x < 80
  {
    s.cells[80 * y + x] == At(t, off, Scrolls(t) + y, x)
  }

  /** The screen shows the 25 rows of the sheet below the scrolled ones, and row 25 was never written. */
  ghost predicate Shows(s: Screen, t: Sheet, off: seq<Cell>) {
    && Fits(s) && |off| == 80
    && t.row == Scrolls(t) + s.row && t.col == s.col
    && (forall y, x {:trigger CellShown(s, t, off, y, x)} | 0 <= y < 25 && 0 <= x < 80 :: CellShown(s, t, off, y, x))
    && s.cells[2000..2080] == off
    && (forall r: nat, x: nat | (r, x) in t.ink :: r <= t.row)
  }

  lemma NextRowShows(s: Screen, t: Sheet, off: seq<Cell>)
    requires Shows(s, t, off)
    ensures Shows(NextRow(s), t.(row := t.row + 1, col := 0), off)
  {
    if s.row + 1 == 25 { ScrolledShows(s, t, off); } else { FeedShows(s, t, off); }
  }

  /** A line feed above the last row moves the cursor only. */
  lemma FeedShows(s: Screen, t: Sheet, off: seq<Cell>)
    requires Shows(s, t, off) && s.row + 1 < 25
    ensures Shows(Screen(s.cells, s.row + 1, 0), t.(row := t.row + 1, col := 0), off)
  {
    var s', t' := Screen(s.cells, s.row + 1, 0), t.(row := t.row + 1, col := 0);
    forall y, x | 0 <= y < 25 && 0 <= x < 80 ensures CellShown(s', t', off, y, x) {
      assert CellShown(s, t, off, y, x);
    }
  }

  /** One in the last row moves the window down by a row. */
  lemma ScrolledShows(s: Screen, t: Sheet, off: seq<Cell>)
    requires Shows(s, t, off) && s.row + 1 == 25
    ensures Shows(Screen(Shifted(s.cells), s.row, 0), t.(row := t.row + 1, col := 0), off)
  {
    var s', t' := Screen(Shifted(s.cells), s.row, 0), t.(row := t.row + 1, col := 0);
    forall y, x | 0 <= y < 25 && 0 <= x < 80 ensures CellShown(s', t', off, y, x) {
      if y < 24 { assert CellShown(s, t, off, y + 1, x); }
      else { assert s.cells[2000..2080][x] == s.cells[2000 + x]; }
    }
    forall x | 0 <= x < 80 ensures s'.cells[2000..2080][x] == off[x] {
      assert s'.cells[2000..2080][x] == s.cells[2000 + x] == s.cells[2000..2080][x];
    }
    assert s'.cells[2000..2080] == off;
  }

  lemma InkShows(s: Screen, t: Sheet, off: seq<Cell>, cell: Cell)
    requires Shows(s, t, off)
    ensures var s' := s.(cells := s.cells[80 * s.row + s.col := cell]);
            Shows(s', t.(ink := t.ink[(t.row, t.col) := cell]), off)
  {
    var s' := s.(cells := s.cells[80 * s.row + s.col := cell]);
    var t' := t.(ink := t.ink[(t.row, t.col) := cell]);
    forall y, x | 0 <= y < 25 && 0 <= x < 80 ensures CellShown(s', t', off, y, x) {
      assert CellShown(s, t, off, y, x);
      assert 80 * y + x == 80 * s.row + s.col ==> y == s.row && x == s.col;
    }
  }

  lemma ColumnShows(s: Screen, t: Sheet, off: seq<Cell>, col: nat)
    requires Shows(s, t, off) && col < 80
    ensures Shows(s.(col := col), t.(col := col), off)
  {
    forall y, x | 0 <= y < 25 && 0 <= x < 80 ensures CellShown(s.(col := col), t.(col := col), off, y, x) {
      assert CellShown(s, t, off, y, x);
    }
  }

  lemma PutShows(s: Screen, t: Sheet, off: seq<Cell>, c: Char, color: bv8)
    requires Shows(s, t, off)
    ensures Shows(Put(s, c, color), SheetPut(t, c, color), off)
  {
    if c == NEWLINE { NextRowShows(s, t, off); }
    else if c == RETURN { ColumnShows(s, t, off, 0); }
    else {
      InkShows(s, t, off, Cell(c, color));
      var s1 := s.(cells := s.cells[80 * s.row + s.col := Cell(c, color)]);
      var t1 := t.(ink := t.ink[(t.row, t.col) := Cell(c, color)]);
      if s.col + 1 == 80 { NextRowShows(s1, t1, off); } else { ColumnShows(s1, t1, off, s.col + 1); }
    }
  }

  /** Whatever is written, the screen stays the window of the unbounded terminal. */
  lemma {:induction false} WriteShows(s: Screen, t: Sheet, off: seq<Cell>, data: seq<Char>, color: bv8)
    requires Shows(s, t, off)
    ensures Shows(Write(s, data, color), SheetWrite(t, data, color), off)
  {
    if data != [] {
      WriteShows(s, t, off, data[..|data| - 1], color);
      PutShows(Write(s, data[..|data| - 1], color), SheetWrite(t, data[..|data| - 1], color), off, data[|data| - 1],
        color);
    }
  }

  // ---------------------------------------------------------------- vga.c

  class Console {
    var row: nat
    var col: nat
    const buffer: array<Cell>

    ghost predicate Valid()
      reads this
    {
      buffer.Length >= 2080 && row < 25 && col < 80
    }

    ghost function View(): (s: Screen)
      reads this, buffer
    {
      Screen(buffer[..], row, col)
    }

    /** `terminal_initialize` */
    constructor (buffer: array<Cell>)
      requires buffer.Length >= 2080
      modifies buffer
      ensures Valid() && this.buffer == buffer
      ensures Shows(View(), Sheet(map[], 0, 0), old(buffer[2000..2080]))
    {
      this.buffer := buffer;
      row, col := 0, 0;
      new;
      for y := 0 to 25
        invariant row == 0 && col == 0
        invariant forall i | 0 <= i < 80 * y :: buffer[i] == BLANK
        invariant buffer[2000..2080] == old(buffer[2000..2080])
      {
        for x := 0 to 80
          invariant row == 0 && col == 0
          invariant forall i | 0 <= i < 80 * y + x :: buffer[i] == BLANK
          invariant buffer[2000..2080] == old(buffer[2000..2080])
        {
          buffer[y * 80 + x] := BLANK;
        }
      }
      var off := buffer[2000..2080];
      forall y, x | 0 <= y < 25 && 0 <= x < 80 ensures CellShown(View(), Sheet(map[], 0, 0), off, y, x) {}
    }

    /** One `memcpy` of the scroll loop: row `y` over row `y - 1`. */
    method CopyRowUp(y: nat)
      requires 1 <= y <= 25 && buffer.Length >= 2080
      modifies buffer
      ensures forall i | 0 <= i < buffer.Length ::
                buffer[i] == if 80 * (y - 1) <= i < 80 * y then old(buffer[i + 80]) else old(buffer[i])
    {
      var from, to := 80 * y, 80 * (y - 1);
      for k := 0 to 80
        invariant forall i | 0 <= i < buffer.Length ::
                  buffer[i] == if to <= i < to + k then old(buffer[i + 80]) else old(buffer[i])
      {
        buffer[to + k] := buffer[from + k];
      }
    }

    /** `terminal_shift_buffer` */
    method ShiftBuffer()
      requires buffer.Length >= 2080 && row > 0
      modifies this, buffer
      ensures buffer[..] == Shifted(old(buffer[..])) && row == old(row) - 1 && col == old(col)
    {
      for y := 1 to 26
        invariant forall i | 0 <= i < buffer.Length ::
                  buffer[i] == if i < 80 * (y - 1) then old(buffer[i + 80]) else old(buffer[i])
        invariant row == old(row) && col == old(col)
      {
        CopyRowUp(y);
      }
      row := row - 1;
    }

    /** The end of a line: next row, scrolling at the bottom. */
    method LineFeed()
      requires Valid()
      modifies this, buffer
      ensures Valid() && View() == NextRow(old(View()))
    {
      row := row + 1;
      col := 0;
      if row == 25 { ShiftBuffer(); }
    }

    /** `terminal_putchar_color` */
    method PutChar(c: Char, color: bv8)
      requires Valid()
      modifies this, buffer
      ensures Valid() && View() == Put(old(View()), c, color)
    {
      if c == NEWLINE { LineFeed(); }
      else if c == RETURN { col := 0; }
      else {
        buffer[80 * row + col] := Cell(c, color);
        ghost var s1 := old(View()).(cells := old(View()).cells[80 * row + col := Cell(c, color)]);
        assert View() == s1;
        if col + 1 == 80 { LineFeed(); } else { col := col + 1; }
      }
    }

    /** `terminal_write` */
    method WriteChars(data: seq<Char>, color: bv8)
      requires Valid()
      modifies this, buffer
      ensures Valid() && View() == Write(old(View()), data, color)
    {
      for i := 0 to |data|
        invariant Valid() && View() == Write(old(View()), data[..i], color)
      {
        PutChar(data[i], color);
        assert data[..i + 1][..i] == data[..i];
      }
      assert data[..|data|] == data;
    }
  }
}
