/**
 * Where the level field's cells are on screen. DrawTiles draws cell (x, y)
 * with its top-left corner at column y * tileSize.x and row x * tileSize.y, a
 * tileSize.x by tileSize.y rectangle: x counts rows, y counts columns.
 * CalculatePoint maps a pointer position back to a cell. Positions are whole
 * pixels relative to the field's top-left corner; tile sizes are positive.
 */
module FieldCoordinates {
  import opened Geometry

  /** Tile sizes from the editor settings: both sides positive. */
  predicate ValidTileSize(tileSize: Vector2Int) {
    tileSize.x > 0 && tileSize.y > 0
  }

  /** The top-left corner DrawTiles gives cell (x, y): column y * tileSize.x, row x * tileSize.y. */
  function CellOrigin(cell: Vector2Int, tileSize: Vector2Int): Vector2Int {
    Vector2Int(cell.y * tileSize.x, cell.x * tileSize.y)
  }

  /** The pixel lies in the rectangle DrawTiles draws cell `cell` in (Rect.Contains: left and top edges included). */
  predicate InCellRect(pixel: Vector2Int, cell: Vector2Int, tileSize: Vector2Int) {
    var origin := CellOrigin(cell, tileSize);
    origin.x <= pixel.x < origin.x + tileSize.x && origin.y <= pixel.y < origin.y + tileSize.y
  }

  /**
   * CalculatePoint as written: x = floor(pos.y / tileSize.x), y = floor(pos.x / tileSize.y).
   * Row and column are swapped, and so are the tile sides they are divided by.
   */
  function CalculatePoint(pixel: Vector2Int, tileSize: Vector2Int): Vector2Int
    requires ValidTileSize(tileSize)
  {
    Vector2Int(pixel.y / tileSize.x, pixel.x / tileSize.y)
  }

  /**
   * The cell under the pixel: the row is pos.y over the tile height, the
   * column pos.x over the tile width. (`/` on int with a positive divisor
   * rounds down, as Mathf.FloorToInt does.)
   */
  function CellAt(pixel: Vector2Int, tileSize: Vector2Int): Vector2Int
    requires ValidTileSize(tileSize)
  {
    Vector2Int(pixel.y / tileSize.y, pixel.x / tileSize.x)
  }

  /** Scaling by a positive factor keeps order. */
  lemma ScaleMonotone(a: int, b: int, d: int)
    requires d > 0 && a <= b
    ensures a * d <= b * d
  {
    var k := b - a;
    assert b * d == a * d + k * d;
  }

  /** v / d is n exactly when v lies in [n * d, n * d + d). */
  lemma FloorDivIff(v: int, d: int, n: int)
    requires d > 0
    ensures v / d == n <==> n * d <= v < n * d + d
  {
    var q := v / d;
    assert q * d <= v < q * d + d;
    if n * d <= v < n * d + d && q != n {
      if q < n {
        ScaleMonotone(q + 1, n, d);
      } else {
        ScaleMonotone(n + 1, q, d);
      }
    }
  }

  /**
   * The corrected mapping and the drawing agree: a pixel lies in the
   * rectangle of a cell exactly when CellAt gives that cell.
   */
  lemma CellAtHitsDrawnCell(pixel: Vector2Int, cell: Vector2Int, tileSize: Vector2Int)
    requires ValidTileSize(tileSize)
    ensures InCellRect(pixel, cell, tileSize) <==> CellAt(pixel, tileSize) == cell
  {
    FloorDivIff(pixel.y, tileSize.y, cell.x);
    FloorDivIff(pixel.x, tileSize.x, cell.y);
  }

  /** Every pixel of a cell's rectangle maps back to that cell, and the cell's corner is such a pixel. */
  lemma CellOriginMapsBack(cell: Vector2Int, tileSize: Vector2Int)
    requires ValidTileSize(tileSize)
    ensures CellAt(CellOrigin(cell, tileSize), tileSize) == cell
  {
    CellAtHitsDrawnCell(CellOrigin(cell, tileSize), cell, tileSize);
  }

  /** With square tiles CalculatePoint is the corrected mapping. */
  lemma SquareTilesAgree(pixel: Vector2Int, tileSize: Vector2Int)
    requires ValidTileSize(tileSize) && tileSize.x == tileSize.y
    ensures CalculatePoint(pixel, tileSize) == CellAt(pixel, tileSize)
  {
  }

  /**
   * With 32 x 16 tiles, pixel (40, 5) lies in the rectangle of cell (0, 1),
   * at columns [32, 64) and rows [0, 16), but CalculatePoint gives (0, 2).
   */
  lemma CalculatePointMissesDrawnCell()
    ensures InCellRect(Vector2Int(40, 5), Vector2Int(0, 1), Vector2Int(32, 16))
    ensures CalculatePoint(Vector2Int(40, 5), Vector2Int(32, 16)) == Vector2Int(0, 2)
  {
  }
}
