/** The string-art compiler (web/src/components/office/sprites.tsx): every row of a sprite becomes
    horizontal runs of one colour; '.' is transparent. */
module Sprites {
  datatype Run = Run(x: nat, y: nat, w: nat, key: char)

  /** The end of the run of equal characters that begins at `x`. */
  function RunEnd(row: string, x: nat): (end: nat)
    requires x < |row|
    ensures x < end <= |row|
    ensures forall i :: x <= i < end ==> row[i] == row[x]
    ensures end < |row| ==> row[end] != row[x]
    decreases |row| - x
  {
    if x + 1 < |row| && row[x + 1] == row[x] then RunEnd(row, x + 1) else x + 1
  }

  /** The runs of a row from `x` on. */
  function RowRuns(row: string, y: nat, x: nat): seq<Run>
    requires x <= |row|
    decreases |row| - x
  {
    if x == |row| then []
    else if row[x] == '.' then RowRuns(row, y, x + 1)
    else [Run(x, y, RunEnd(row, x) - x, row[x])] + RowRuns(row, y, RunEnd(row, x))
  }

  function Runs(rows: seq<string>): seq<Run> {
    if rows == [] then []
    else Runs(rows[..|rows| - 1]) + RowRuns(rows[|rows| - 1], |rows| - 1, 0)
  }

  method Compile(rows: seq<string>) returns (runs: seq<Run>)
    ensures runs == Runs(rows)
  {
    runs := [];
    for y := 0 to |rows|
      invariant runs == Runs(rows[..y])
    {
      assert rows[..y + 1][..y] == rows[..y];
      var row, x := rows[y], 0;
      ghost var before := runs;
      while x < |row|
        invariant 0 <= x <= |row|
        invariant before + RowRuns(row, y, 0) == runs + RowRuns(row, y, x)
      {
        if row[x] == '.' {
          x := x + 1;
          continue;
        }
        var key, width := row[x], 1;
        while x + width < |row| && row[x + width] == key
          invariant width >= 1 && x + width <= |row| && RunEnd(row, x) == RunEnd(row, x + width - 1)
          invariant row[x + width - 1] == key
        {
          width := width + 1;
        }
        runs := runs + [Run(x, y, width, key)];
        x := x + width;
      }
    }
    assert rows[..|rows|] == rows;
  }

  // ---- Painting -----------------------------------------------------------------------

  predicate Covers(run: Run, x: int, y: int) {
    run.y == y && run.x <= x < run.x + run.w
  }

  /** The pixel the runs paint on a blank canvas, later ones over earlier ones. */
  function Painted(runs: seq<Run>, x: int, y: int): char {
    if runs == [] then '.'
    else if Covers(runs[|runs| - 1], x, y) then runs[|runs| - 1].key
    else Painted(runs[..|runs| - 1], x, y)
  }

  function Pixel(rows: seq<string>, x: int, y: int): char {
    if 0 <= y < |rows| && 0 <= x < |rows[y]| then rows[y][x] else '.'
  }

  /** Runs of a row from `x` on, in order, apart from each other, inside the row. */
  ghost predicate InOrder(runs: seq<Run>, row: string, y: nat, x: nat) {
    if runs == [] then true
    else
      var run := runs[0];
      && run.y == y && run.w > 0 && x <= run.x && run.x + run.w <= |row|
      && InOrder(runs[1..], row, y, run.x + run.w)
  }

  /** Of one colour, and not extensible to either side. */
  predicate IsMaximal(run: Run, row: string) {
    && run.w > 0 && run.x + run.w <= |row| && run.key != '.'
    && (forall i :: run.x <= i < run.x + run.w ==> row[i] == run.key)
    && (run.x > 0 ==> row[run.x - 1] != run.key)
    && (run.x + run.w < |row| ==> row[run.x + run.w] != run.key)
  }

  /** The runs of a row are disjoint, ordered and maximal. */
  lemma {:induction false} RowRunsAreMaximal(row: string, y: nat, x: nat)
    requires x <= |row| && (0 < x < |row| ==> row[x - 1] != row[x] || row[x] == '.' || row[x - 1] == '.')
    ensures InOrder(RowRuns(row, y, x), row, y, x)
    ensures forall i :: 0 <= i < |RowRuns(row, y, x)| ==> IsMaximal(RowRuns(row, y, x)[i], row)
    decreases |row| - x
  {
    if x < |row| {
      var next := if row[x] == '.' then x + 1 else RunEnd(row, x);
      RowRunsAreMaximal(row, y, next);
      if row[x] == '.' {
        StartsLater(RowRuns(row, y, next), row, y, x, next);
      } else {
        var runs, rest := RowRuns(row, y, x), RowRuns(row, y, next);
        assert runs[1..] == rest;
        assert forall i :: 1 <= i < |runs| ==> runs[i] == rest[i - 1];
      }
    }
  }

  lemma StartsLater(runs: seq<Run>, row: string, y: nat, x: nat, later: nat)
    requires InOrder(runs, row, y, later) && x <= later
    ensures InOrder(runs, row, y, x)
  {}

  lemma {:induction false} PaintedJoined(a: seq<Run>, b: seq<Run>, x: int, y: int)
    requires forall i :: 0 <= i < |b| ==> b[i].key != '.'
    ensures Painted(a + b, x, y) == if Painted(b, x, y) != '.' then Painted(b, x, y) else Painted(a, x, y)
  {
    if b == [] {
      assert a + b == a;
    } else {
      PaintedJoined(a, b[..|b| - 1], x, y);
      assert (a + b)[..|a + b| - 1] == a + b[..|b| - 1];
    }
  }

  lemma {:induction false} NoneTransparent(row: string, y: nat, x: nat)
    requires x <= |row|
    ensures forall i :: 0 <= i < |RowRuns(row, y, x)| ==> RowRuns(row, y, x)[i].key != '.'
    decreases |row| - x
  {
    if x < |row| {
      NoneTransparent(row, y, if row[x] == '.' then x + 1 else RunEnd(row, x));
    }
  }

  lemma {:induction false} RowPaints(row: string, y: nat, from: nat, x: int, y': int)
    requires from <= |row|
    ensures Painted(RowRuns(row, y, from), x, y') == if y' == y && from <= x < |row| then row[x] else '.'
    decreases |row| - from
  {
    if from < |row| {
      var next := if row[from] == '.' then from + 1 else RunEnd(row, from);
      RowPaints(row, y, next, x, y');
      if row[from] != '.' {
        var run := Run(from, y, next - from, row[from]);
        NoneTransparent(row, y, next);
        PaintedJoined([run], RowRuns(row, y, next), x, y');
        assert [run][..0] == [];
      }
    }
  }

  /** Painting the runs gives back every pixel of every row, and nothing beside. */
  lemma {:induction false} PaintingGivesBackTheRows(rows: seq<string>, x: int, y: int)
    ensures Painted(Runs(rows), x, y) == Pixel(rows, x, y)
  {
    if rows != [] {
      var n := |rows| - 1;
      PaintingGivesBackTheRows(rows[..n], x, y);
      NoneTransparent(rows[n], n, 0);
      RowPaints(rows[n], n, 0, x, y);
      PaintedJoined(Runs(rows[..n]), RowRuns(rows[n], n, 0), x, y);
    }
  }
}
