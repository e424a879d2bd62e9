/** The sprite-row repair script (fix_corrupted_rows.js): every pixel row of
    the peanut sprite is padded or cut to 59 cells. Reading and writing the
    sprite file is not part of this model. */
module RowFix {

  /** The colour a short row is padded with. */
  const Padding := "#191929"
  /** The width of a sprite row. */
  const Width := 59
  const Directions := ["down", "up", "left", "right"]

  function Pad(n: nat): (r: seq<string>)
    ensures |r| == n && forall i :: 0 <= i < n ==> r[i] == Padding
  {
    if n == 0 then [] else Pad(n - 1) + [Padding]
  }

  /** The row `fixRow(row, n)` leaves. */
  function Fixed(cells: seq<string>, n: nat): seq<string> {
    if |cells| < n then cells + Pad(n - |cells|)
    else if |cells| > n then cells[..n]
    else cells
  }

  /** A fixed row has the target length; a short row keeps its cells and is
      padded only with the padding colour; a long row keeps its first `n`
      cells. */
  lemma FixedShape(cells: seq<string>, n: nat)
    ensures |Fixed(cells, n)| == n
    ensures forall i :: 0 <= i < n && i < |cells| ==> Fixed(cells, n)[i] == cells[i]
    ensures forall i :: |cells| <= i < n ==> Fixed(cells, n)[i] == Padding
    ensures |cells| >= n ==> Fixed(cells, n) == cells[..n]
  {
  }

  /** A row of the right length is left alone, so fixing twice is fixing
      once. */
  lemma FixedIdempotent(cells: seq<string>, n: nat)
    ensures |cells| == n ==> Fixed(cells, n) == cells
    ensures Fixed(Fixed(cells, n), n) == Fixed(cells, n)
  {
    FixedShape(cells, n);
  }

  /** A pixel row; the script changes rows in place. */
  class Row {
    var cells: seq<string>

    constructor (cells: seq<string>)
      ensures this.cells == cells
    {
      this.cells := cells;
    }
  }

  /** `fixRow(row, n)`: pad with the padding colour, one cell at a time, or
      cut the row; the same row is returned. */
  method FixRow(row: Row, n: nat) returns (r: Row)
    modifies row
    ensures r == row
    ensures row.cells == Fixed(old(row.cells), n)
  {
    var currentLength := |row.cells|;
    if currentLength < n {
      var padding := n - currentLength;
      var i := 0;
      while i < padding
        invariant 0 <= i <= padding
        invariant row.cells == old(row.cells) + Pad(i)
      {
        row.cells := row.cells + [Padding];
        i := i + 1;
      }
    } else if currentLength > n {
      row.cells := row.cells[..n];
    }
    return row;
  }

  /** Every row of a sprite direction. */
  ghost function RowsOf(pixels: map<string, seq<Row>>): set<Row> {
    set d, r | d in Directions && d in pixels && r in pixels[d] :: r
  }

  /** The loop over one direction's rows: every row not 59 cells wide is
      fixed. A row listed twice is fixed once, which leaves it as fixing it
      again would. */
  method FixDirection(rows: seq<Row>, ghost all: set<Row>, ghost start: map<Row, seq<string>>)
    requires forall r :: r in rows ==> r in all
    requires forall r :: r in all ==> r in start && (r.cells == start[r] || r.cells == Fixed(start[r], Width))
    modifies all
    ensures forall r :: r in all ==> r.cells == start[r] || r.cells == Fixed(start[r], Width)
    ensures forall r :: r in rows ==> r.cells == Fixed(start[r], Width)
    ensures forall r :: r in all && r !in rows ==> r.cells == old(r.cells)
  {
    var i := 0;
    while i < |rows|
      invariant 0 <= i <= |rows|
      invariant forall r :: r in all ==> r.cells == start[r] || r.cells == Fixed(start[r], Width)
      invariant forall k :: 0 <= k < i ==> rows[k].cells == Fixed(start[rows[k]], Width)
      invariant forall r :: r in all && r !in rows ==> r.cells == old(r.cells)
    {
      var row := rows[i];
      FixedIdempotent(start[row], Width);
      if |row.cells| != Width {
        FixedShape(start[row], Width);
        var _ := FixRow(row, Width);
      }
      i := i + 1;
    }
  }

  /** The driver: fix every direction in turn. Afterwards every row of every
      direction is its fixed form, 59 cells wide. */
  method FixSprite(pixels: map<string, seq<Row>>, ghost start: map<Row, seq<string>>)
    requires forall d :: d in Directions ==> d in pixels
    requires forall r :: r in RowsOf(pixels) ==> r in start && r.cells == start[r]
    modifies RowsOf(pixels)
    ensures forall d, r :: d in Directions && r in pixels[d] ==> r.cells == Fixed(start[r], Width) && |r.cells| == Width
  {
    ghost var all := RowsOf(pixels);
    var j := 0;
    while j < |Directions|
      invariant 0 <= j <= |Directions|
      invariant forall r :: r in all ==> r.cells == start[r] || r.cells == Fixed(start[r], Width)
      invariant forall k, r :: 0 <= k < j && r in pixels[Directions[k]] ==> r.cells == Fixed(start[r], Width)
    {
      var dir := Directions[j];
      assert forall r :: r in pixels[dir] ==> r in all;
      FixDirection(pixels[dir], all, start);
      j := j + 1;
    }
    forall d, r | d in Directions && r in pixels[d]
      ensures r.cells == Fixed(start[r], Width) && |r.cells| == Width
    {
      FixedShape(start[r], Width);
    }
  }
}
