/**
 * One layer of a level: a jagged grid of tile ids (`int[][]`, 0 = empty) that
 * can be resized in place and that Unity serializes as a list of lines, one
 * list of ints per row.
 */
module LevelLayers {
  import opened Geometry

  /** The sequence Array.Resize leaves: the first min(|s|, n) elements, then `pad`. */
  function Fit<T>(s: seq<T>, n: nat, pad: T): (r: seq<T>)
    ensures |r| == n
    ensures forall i :: 0 <= i < n && i < |s| ==> r[i] == s[i]
    ensures forall i :: |s| <= i < n ==> r[i] == pad
  {
    if n <= |s| then s[..n] else s + seq(n - |s|, _ => pad)
  }

  /**
   * System.Array.Resize(ref a, n): the same array when its length is already n,
   * otherwise a fresh array holding the overlapping prefix and default values.
   */
  method ArrayResize<T>(a: array<T>, n: nat, pad: T) returns (r: array<T>)
    ensures r[..] == Fit(old(a[..]), n, pad)
    ensures a.Length == n ==> r == a
    ensures a.Length != n ==> fresh(r)
  {
    if a.Length == n {
      return a;
    }
    r := new T[n](i requires 0 <= i reads a => if i < a.Length then a[i] else pad);
  }

  /** The sizes Resize accepts without throwing: a negative row count always throws, a negative row length throws once a row exists. */
  predicate ResizeAccepts(size: Vector2Int) {
    size.x >= 0 && (size.x == 0 || size.y >= 0)
  }

  /** A grid has `size.x` rows, each of length `size.y`. */
  predicate HasSize(g: seq<seq<int>>, size: Vector2Int) {
    |g| == size.x && forall x :: 0 <= x < |g| ==> |g[x]| == size.y
  }

  /** The grid after Resize(size): overlapping cells kept, every new cell 0. */
  function Resized(g: seq<seq<int>>, size: Vector2Int): (r: seq<seq<int>>)
    requires ResizeAccepts(size)
    ensures HasSize(r, size)
    ensures forall x, y :: 0 <= x < |r| && x < |g| && 0 <= y < |r[x]| && y < |g[x]| ==> r[x][y] == g[x][y]
    ensures forall x, y :: 0 <= x < |r| && 0 <= y < |r[x]| && (x >= |g| || y >= |g[x]|) ==> r[x][y] == 0
  {
    var r := seq(size.x, x requires 0 <= x < size.x => ResizedRow(g, x, size.y));
    assert forall x :: 0 <= x < size.x ==> r[x] == ResizedRow(g, x, size.y);
    r
  }

  /** Row x of a grid resized to rows of length h: the old row (or nothing) fitted to h with zeros. */
  function ResizedRow(g: seq<seq<int>>, x: nat, h: nat): seq<int> {
    Fit(if x < |g| then g[x] else [], h, 0)
  }

  /** One step of Resize's loop: a missing row becomes `new int[0]`, then Array.Resize fits it to length h. */
  method ResizeRow(elem: array?<int>, h: nat) returns (r: array<int>)
    ensures r[..] == Fit(if elem == null then [] else old(elem[..]), h, 0)
    ensures elem != null && elem.Length == h ==> r == elem
    ensures elem == null || elem.Length != h ==> fresh(r)
  {
    var row := elem;
    if row == null {
      row := new int[0];
    }
    r := ArrayResize(row, h, 0);
  }

  /**
   * The loop of Resize over the already resized outer array: row i (the old
   * row i, or null past the old end) is fitted to length h. `added` collects
   * the rows afterwards; all of them are old rows or fresh.
   */
  method FitRows(rows: array<array?<int>>, h: nat, ghost oldRows: seq<array?<int>>, ghost oldGrid: seq<seq<int>>,
                 ghost olds: set<object>) returns (ghost added: set<object>)
    requires |oldRows| == |oldGrid|
    requires forall k :: 0 <= k < |oldRows| ==> oldRows[k] != null && oldRows[k] in olds && oldRows[k][..] == oldGrid[k]
    requires forall j, k :: 0 <= j < k < |oldRows| ==> oldRows[j] != oldRows[k]
    requires forall k :: 0 <= k < rows.Length ==> rows[k] == if k < |oldRows| then oldRows[k] else null
    modifies rows
    ensures forall k :: 0 <= k < rows.Length ==> rows[k] != null && rows[k] in added
    ensures forall k :: 0 <= k < rows.Length ==> rows[k][..] == ResizedRow(oldGrid, k, h)
    ensures forall j, k :: 0 <= j < k < rows.Length ==> rows[j] != rows[k]
    ensures fresh(added - olds)
  {
    added := {};
    var i := 0;
    while i < rows.Length
      invariant 0 <= i <= rows.Length
      invariant forall k :: 0 <= k < |oldRows| ==> oldRows[k] != null && oldRows[k][..] == oldGrid[k]
      invariant forall k :: i <= k < rows.Length ==> rows[k] == if k < |oldRows| then oldRows[k] else null
      invariant forall k :: i <= k < |oldRows| ==> oldRows[k] !in added
      invariant forall k :: 0 <= k < i ==> rows[k] != null && rows[k] in added
      invariant forall k :: 0 <= k < i ==> rows[k][..] == ResizedRow(oldGrid, k, h)
      invariant forall j, k :: 0 <= j < k < i ==> rows[j] != rows[k]
      invariant fresh(added - olds)
    {
      var elem := ResizeRow(rows[i], h);
      assert elem == rows[i] || fresh(elem);
      assert forall k :: 0 <= k < i ==> rows[k] != elem;
      rows[i] := elem;
      added := added + {elem};
      i := i + 1;
    }
  }

  /** LevelLayerData: the grid buffer and its serialized list of lines. */
  class LevelLayerData {
    /** The serialized form: one line of values per row. */
    var lines: seq<seq<int>>
    /** The grid buffer; rows are null only while Resize fills newly added ones. */
    var data: array<array?<int>>

    /** The grid the buffer holds, row by row. */
    ghost var Grid: seq<seq<int>>
    ghost var Repr: set<object>

    ghost predicate Valid()
      reads this, Repr
      ensures Valid() ==> this in Repr
    {
      && this in Repr && data in Repr
      && |Grid| == data.Length
      && (forall i :: 0 <= i < data.Length ==> data[i] != null && data[i] in Repr && data[i][..] == Grid[i])
      && (forall i, j :: 0 <= i < j < data.Length ==> data[i] != data[j])
    }

    /** A new buffer is empty: no rows and no lines. */
    constructor ()
      ensures Valid() && fresh(Repr)
      ensures Grid == [] && lines == []
    {
      lines := [];
      data := new array?<int>[0];
      Grid := [];
      Repr := {this, data};
    }

    /** The indexer getter `this[x, y]`; both indices must lie inside the jagged grid. */
    function Get(x: int, y: int): (v: int)
      reads this, Repr
      requires Valid()
      requires 0 <= x < |Grid| && 0 <= y < |Grid[x]|
      ensures v == Grid[x][y]
    {
      data[x][y]
    }

    /** The bounds checks of `data[x][y]`: the indexer throws exactly when this is false. */
    function HasCell(x: int, y: int): (b: bool)
      reads this, Repr
      requires Valid()
      ensures b <==> 0 <= x < |Grid| && 0 <= y < |Grid[x]|
    {
      0 <= x < data.Length && 0 <= y < data[x].Length
    }

    /** The indexer setter `this[x, y] = v`: that cell changes and no other. */
    method Set(x: int, y: int, v: int)
      requires Valid()
      requires 0 <= x < |Grid| && 0 <= y < |Grid[x]|
      modifies Repr
      ensures Valid() && Repr == old(Repr) && lines == old(lines)
      ensures Grid == old(Grid)[x := old(Grid)[x][y := v]]
    {
      data[x][y] := v;
      Grid := Grid[x := Grid[x][y := v]];
    }

    /**
     * Resize: size.x rows of length size.y, keeping the overlapping region and
     * zero-filling new cells. A row whose length already fits is kept as it is;
     * every other row is a fresh copy.
     */
    method Resize(size: Vector2Int)
      requires Valid()
      requires ResizeAccepts(size)
      modifies Repr
      ensures Valid() && fresh(Repr - old(Repr))
      ensures lines == old(lines)
      ensures Grid == Resized(old(Grid), size)
    {
      ghost var oldGrid := Grid;
      var rows := ArrayResize(data, size.x, null);
      if size.x > 0 {
        ghost var added := FitRows(rows, size.y as nat, old(data[..]), oldGrid, Repr);
        Repr := Repr + added;
      }
      data := rows;
      Grid := Resized(oldGrid, size);
      Repr := Repr + {rows};
    }

    /** OnBeforeSerialize: the previous lines are discarded and each row becomes one line, in order. */
    method OnBeforeSerialize()
      requires Valid()
      modifies this`lines
      ensures Valid()
      ensures lines == Grid
    {
      lines := [];
      var i := 0;
      while i < data.Length
        invariant 0 <= i <= data.Length
        invariant lines == Grid[..i]
      {
        lines := lines + [data[i][..]];
        i := i + 1;
      }
    }

    /** OnAfterDeserialize: a fresh buffer with one row per line, row x holding line x's values. */
    method OnAfterDeserialize()
      requires Valid()
      modifies Repr
      ensures Valid() && fresh(Repr - {this})
      ensures lines == old(lines)
      ensures Grid == lines
    {
      var rows := new array?<int>[|lines|];
      ghost var added: set<object> := {};
      var x := 0;
      while x < |lines|
        invariant 0 <= x <= |lines|
        invariant forall k :: 0 <= k < x ==> rows[k] != null && rows[k] in added && rows[k][..] == lines[k]
        invariant forall j, k :: 0 <= j < k < x ==> rows[j] != rows[k]
        invariant fresh(added)
        modifies rows
      {
        var values := lines[x];
        var row := new int[|values|](k requires 0 <= k < |values| => values[k]);
        rows[x] := row;
        added := added + {row};
        x := x + 1;
      }
      data := rows;
      Grid := lines;
      Repr := {this, rows} + added;
    }
  }

  /** Unity's save-then-load cycle of one buffer leaves every cell as it was. */
  method SerializationRoundTrip(d: LevelLayerData)
    requires d.Valid()
    modifies d.Repr
    ensures d.Valid()
    ensures d.Grid == old(d.Grid)
  {
    d.OnBeforeSerialize();
    d.OnAfterDeserialize();
  }

  /** LevelLayer: a named layer asset that delegates to its buffer. */
  class LevelLayer {
    var name: string
    const data: LevelLayerData
    ghost var Repr: set<object>

    ghost predicate Valid()
      reads this, Repr
      ensures Valid() ==> this in Repr
    {
      this in Repr && data in Repr && data.Repr <= Repr && this !in data.Repr && data.Valid()
    }

    /** The layer's grid. */
    ghost function Grid(): seq<seq<int>>
      reads this, data
    {
      data.Grid
    }

    /** ScriptableObject.CreateInstance<LevelLayer>(): an empty, unnamed layer. */
    constructor ()
      ensures Valid() && fresh(Repr)
      ensures Grid() == [] && name == ""
    {
      name := "";
      data := new LevelLayerData();
      new;
      Repr := {this} + data.Repr;
    }

    /** Resize forwards to the buffer: the layer's grid is exactly the buffer's resize. */
    method Resize(newSize: Vector2Int)
      requires Valid()
      requires ResizeAccepts(newSize)
      modifies Repr
      ensures Valid() && fresh(Repr - old(Repr))
      ensures name == old(name)
      ensures Grid() == Resized(old(Grid()), newSize)
    {
      data.Resize(newSize);
      Repr := Repr + data.Repr;
    }

    /** The indexer `this[x, y]`. */
    function Cell(x: int, y: int): (v: int)
      reads this, Repr
      requires Valid()
      requires 0 <= x < |Grid()| && 0 <= y < |Grid()[x]|
      ensures v == Grid()[x][y]
    {
      data.Get(x, y)
    }

    /** Whether the indexer `this[x, y]` finds a cell rather than throwing. */
    function HasCell(x: int, y: int): (b: bool)
      reads this, Repr
      requires Valid()
      ensures b <==> 0 <= x < |Grid()| && 0 <= y < |Grid()[x]|
    {
      data.HasCell(x, y)
    }

    /** The indexer `this[point]`: the same cell as `this[point.x, point.y]`. */
    function CellAt(point: Vector2Int): (v: int)
      reads this, Repr
      requires Valid()
      requires 0 <= point.x < |Grid()| && 0 <= point.y < |Grid()[point.x]|
      ensures v == Grid()[point.x][point.y]
    {
      data.Get(point.x, point.y)
    }

    /** The indexer setter `this[x, y] = v`: that cell changes and no other. */
    method SetCell(x: int, y: int, v: int)
      requires Valid()
      requires 0 <= x < |Grid()| && 0 <= y < |Grid()[x]|
      modifies Repr
      ensures Valid() && Repr == old(Repr) && name == old(name)
      ensures Grid() == old(Grid())[x := old(Grid())[x][y := v]]
    {
      data.Set(x, y, v);
    }

    /** The indexer setter `this[point] = v`: the same write as `this[point.x, point.y] = v`. */
    method SetCellAt(point: Vector2Int, v: int)
      requires Valid()
      requires 0 <= point.x < |Grid()| && 0 <= point.y < |Grid()[point.x]|
      modifies Repr
      ensures Valid() && Repr == old(Repr) && name == old(name)
      ensures Grid() == old(Grid())[point.x := old(Grid())[point.x][point.y := v]]
    {
      data.Set(point.x, point.y, v);
    }
  }
}
