/**
 * The column bookkeeping of the falling-glyph background (class MatrixRain in
 * script.js). Each column of the canvas, 14 pixels wide, holds the grid row at
 * which its next glyph is drawn; every frame advances each row by one, and a
 * column whose glyph has fallen below the canvas restarts from the top with a
 * small probability.
 *
 * The drawing calls are left out, and the random decisions are passed in.
 */
module Rain {

  /** Width and height of one glyph cell, in pixels. */
  const FontSize := 14

  /** Math.floor(width / 14): the number of columns across a canvas `width` pixels wide. */
  function ColumnCount(width: nat): (n: nat)
    ensures n * FontSize <= width < (n + 1) * FontSize
  {
    width / FontSize
  }

  /**
   * One frame of one column at row `row`: the glyph's pixel row is row * 14;
   * `reset` is the outcome of the random draw (Math.random() > 0.975), which
   * only matters once that pixel row is below the canvas.
   */
  function Fall(row: int, height: int, reset: bool): (next: int)
    ensures next == row + 1 || next == 1
    ensures row >= 0 ==> next >= 1
    ensures row * FontSize <= height ==> next == row + 1
    ensures row >= 1 ==> (next <= row <==> row * FontSize > height && reset)
  {
    // a restarted column is set to row 0 and then advanced like every other
    if row * FontSize > height && reset then 1 else row + 1
  }

  /** One frame of every column, with one random decision per column. */
  function Fallen(rows: seq<int>, height: int, resets: seq<bool>): (r: seq<int>)
    requires |resets| == |rows|
    ensures |r| == |rows|
    ensures forall i :: 0 <= i < |rows| ==> r[i] == rows[i] + 1 || r[i] == 1
    ensures forall i :: 0 <= i < |rows| && rows[i] >= 0 ==> r[i] >= 1
    // a column restarts only when its glyph is below the canvas and the draw says so
    ensures forall i :: 0 <= i < |rows| && rows[i] >= 1 ==>
              (r[i] <= rows[i] <==> rows[i] * FontSize > height && resets[i])
    // a column whose glyph is still on the canvas always moves down one row
    ensures forall i :: 0 <= i < |rows| && rows[i] * FontSize <= height ==> r[i] == rows[i] + 1
  {
    seq(|rows|, i requires 0 <= i < |rows| => Fall(rows[i], height, resets[i]))
  }

  class MatrixRain {
    /** Canvas size in pixels. */
    var width: nat
    var height: nat
    var columnCount: nat
    var columns: array<int>

    ghost predicate Valid()
      reads this, columns
    {
      columnCount == ColumnCount(width) && columns.Length == columnCount &&
      forall i :: 0 <= i < columns.Length ==> columns[i] >= 1
    }

    constructor (innerWidth: nat, innerHeight: nat)
      ensures Valid() && fresh(columns)
      ensures width == innerWidth && height == innerHeight
      ensures columns[..] == seq(ColumnCount(innerWidth), _ => 1)
    {
      width, height, columnCount := 0, 0, 0;
      columns := new int[0];
      new;
      Resize(innerWidth, innerHeight);
    }

    /** Fits the canvas to the window and restarts every column at row 1. */
    method Resize(innerWidth: nat, innerHeight: nat)
      modifies this
      ensures Valid() && fresh(columns)
      ensures width == innerWidth && height == innerHeight
      ensures columns[..] == seq(ColumnCount(innerWidth), _ => 1)
    {
      width := innerWidth;
      height := innerHeight;
      columnCount := ColumnCount(width);
      columns := new int[columnCount](_ => 1);
    }

    /** One animation frame: every column moves down a row or restarts at row 1. */
    method Draw(resets: seq<bool>)
      requires Valid() && |resets| == columns.Length
      modifies columns
      ensures Valid()
      ensures columns[..] == Fallen(old(columns[..]), height, resets)
    {
      var i := 0;
      while i < columns.Length
        invariant 0 <= i <= columns.Length
        invariant forall k :: 0 <= k < i ==> columns[k] == Fall(old(columns[k]), height, resets[k])
        invariant forall k :: i <= k < columns.Length ==> columns[k] == old(columns[k])
      {
        var y := columns[i] * FontSize;
        if y > height && resets[i] {
          columns[i] := 0;
        }
        columns[i] := columns[i] + 1;
        i := i + 1;
      }
    }
  }
}
