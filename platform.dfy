/**
 * Grid index / world position conversion of the scene (sence.js).
 *
 * The platform is `s_width` by `s_length` cells centred on the origin; instance
 * index `i` of the platform mesh is converted to a cell position and back.  Both
 * dimensions are positive in every scene the constructor builds (default 10 by 10).
 * JavaScript's `%` and `Math.floor(a / b)` agree with Dafny's Euclidean operators here
 * because every divisor is positive and every dividend non-negative.
 */
module Platform {

  datatype GridPos = GridPos(x: int, y: int)

  /** The `s_width` and `s_length` fields of the scene. */
  datatype Platform = Platform(width: nat, length: nat) {

    predicate Valid()
    {
      width > 0 && length > 0
    }

    /** `getPositionOfPlatformIndex({ index })`. */
    function PositionOfPlatformIndex(index: nat): GridPos
      requires Valid()
    {
      var row := index / length;
      var col := index % width;
      GridPos(col - width / 2, row - length / 2)
    }

    /** `calculateIndexByPosition({ position })`. */
    function IndexByPosition(p: GridPos): (index: nat)
    {
      var v := p.x + width / 2 + (p.y + length / 2) * width;
      if v < 0 then -v else v
    }
  }

  /**
   * On a square platform the two conversions are inverse: converting an instance
   * index to a position and back gives the index again.
   */
  lemma {:induction false} IndexRoundTrip(p: Platform, index: nat)
    requires p.Valid() && p.width == p.length
    requires index < p.width * p.length
    ensures p.IndexByPosition(p.PositionOfPlatformIndex(index)) == index
  {
    var w := p.width;
    var row, col := index / w, index % w;
    assert index == row * w + col;
    var pos := p.PositionOfPlatformIndex(index);
    assert pos.x + w / 2 == col && pos.y + p.length / 2 == row;
    assert pos.x + w / 2 + (pos.y + p.length / 2) * w == index;
  }

  /**
   * On a platform that is not square the row uses `s_length` and the column
   * `s_width`, and the round trip fails: on a 2-by-3 platform index 2 comes back as 0.
   */
  lemma RoundTripFailsWhenNotSquare()
    ensures Platform(2, 3).PositionOfPlatformIndex(2) == GridPos(-1, -1)
    ensures Platform(2, 3).IndexByPosition(GridPos(-1, -1)) == 0
  {
  }

  /** `getChildrenInGrid`'s clamp of one corner coordinate. */
  function ClampCorner(corner: int, size: nat, dim: nat): (c: int)
    ensures c + size <= dim / 2
    ensures corner + size <= dim / 2 ==> c == corner
    ensures corner + size > dim / 2 ==> c + size == dim / 2
  {
    if corner + size > dim / 2 then dim / 2 - size else corner
  }

  /** One entry of `getChildrenInGrid`'s result: the instance index and the cell position. */
  datatype GridChild = GridChild(index: nat, position: GridPos)

  /** The entry for cell `(cx + i, cz + j)`. */
  function ChildAt(p: Platform, cx: int, cz: int, i: int, j: int): GridChild
  {
    GridChild(p.IndexByPosition(GridPos(cx + i, cz + j)), GridPos(cx + i, cz + j))
  }

  /** The cells `(x, cz) .. (x, cz + n - 1)` of one column, in order. */
  function Column(p: Platform, x: int, cz: int, n: nat): seq<GridChild>
  {
    if n == 0 then [] else Column(p, x, cz, n - 1) + [ChildAt(p, x, cz, 0, n - 1)]
  }

  /** Columns `cx .. cx + m - 1`, each `size` cells high, one after the other. */
  function Block(p: Platform, cx: int, cz: int, m: nat, size: nat): seq<GridChild>
  {
    if m == 0 then [] else Block(p, cx, cz, m - 1, size) + Column(p, cx + m - 1, cz, size)
  }

  /**
   * `getChildrenInGrid({ cornerPosition, gridSize })`: after clamping the corner,
   * the cells of the `sizeX` by `sizeZ` block, column by column.
   */
  method ChildrenInGrid(p: Platform, cornerX: int, cornerZ: int, sizeX: nat, sizeZ: nat)
    returns (children: seq<GridChild>)
    ensures children == Block(p, ClampCorner(cornerX, sizeX, p.width), ClampCorner(cornerZ, sizeZ, p.length), sizeX, sizeZ)
  {
    children := [];
    var cx, cz := cornerX, cornerZ;
    if cx + sizeX > p.width / 2 {
      cx := p.width / 2 - sizeX;
    }
    if cz + sizeZ > p.length / 2 {
      cz := p.length / 2 - sizeZ;
    }
    var x := cx;
    while x < cx + sizeX
      invariant cx <= x <= cx + sizeX
      invariant children == Block(p, cx, cz, x - cx, sizeZ)
    {
      var z := cz;
      ghost var before := children;
      while z < cz + sizeZ
        invariant cz <= z <= cz + sizeZ
        invariant children == before + Column(p, x, cz, z - cz)
      {
        var position := GridPos(x, z);
        assert ChildAt(p, x, cz, 0, z - cz) == GridChild(p.IndexByPosition(position), position);
        SnocAssoc(before, Column(p, x, cz, z - cz), ChildAt(p, x, cz, 0, z - cz));
        children := children + [GridChild(p.IndexByPosition(position), position)];
        z := z + 1;
      }
      x := x + 1;
    }
  }

  lemma SnocAssoc<T>(a: seq<T>, b: seq<T>, x: T)
    ensures (a + b) + [x] == a + (b + [x])
  {
  }

  lemma {:induction false} ColumnAt(p: Platform, x: int, cz: int, n: nat, j: nat)
    requires j < n
    ensures |Column(p, x, cz, n)| == n
    ensures Column(p, x, cz, n)[j] == ChildAt(p, x, cz, 0, j)
  {
    if j < n - 1 {
      ColumnAt(p, x, cz, n - 1, j);
    } else if n > 1 {
      ColumnAt(p, x, cz, n - 1, 0);
    }
  }

  lemma {:induction false} ColumnLength(p: Platform, x: int, cz: int, n: nat)
    ensures |Column(p, x, cz, n)| == n
  {
    if n > 0 {
      ColumnLength(p, x, cz, n - 1);
    }
  }

  /**
   * `getChildrenInGrid` returns `sizeX * sizeZ` entries, and entry `i * sizeZ + j`
   * is the cell `(cx + i, cz + j)` with its instance index.
   */
  lemma {:induction false} BlockAt(p: Platform, cx: int, cz: int, m: nat, size: nat, i: nat, j: nat)
    ensures |Block(p, cx, cz, m, size)| == m * size
    ensures i < m && j < size ==>
              i * size + j < m * size && Block(p, cx, cz, m, size)[i * size + j] == ChildAt(p, cx, cz, i, j)
  {
    if m > 0 {
      BlockAt(p, cx, cz, m - 1, size, i, j);
      ColumnLength(p, cx + m - 1, cz, size);
      assert (m - 1) * size + size == m * size;
      if i < m && j < size {
        BlockIndex(i, j, m - 1, size);
        if i == m - 1 {
          ColumnAt(p, cx + m - 1, cz, size, j);
        }
      }
    }
  }

  /** Row-major block indexing: entry `(i, j)` of rows `0..n` of width `s` lies in row `n` or before it. */
  lemma BlockIndex(i: int, j: int, n: int, s: int)
    requires 0 <= i <= n && 0 <= j < s
    ensures i < n ==> i * s + j < n * s
    ensures i == n ==> i * s + j == n * s + j
  {
    if i < n {
      assert i * s + j < i * s + s == (i + 1) * s;
      assert (i + 1) * s <= n * s;
    }
  }

  /** Every entry of a column is a cell of that column, carrying its own instance index. */
  lemma {:induction false} ColumnCells(p: Platform, x: int, cz: int, n: nat, k: nat)
    requires k < |Column(p, x, cz, n)|
    ensures var c := Column(p, x, cz, n)[k];
            c.position.x == x && cz <= c.position.y < cz + n && c.index == p.IndexByPosition(c.position)
  {
    ColumnLength(p, x, cz, n - 1);
    if k < n - 1 {
      ColumnCells(p, x, cz, n - 1, k);
    }
  }

  /** Every entry of a block lies in the block's rectangle and carries its own instance index. */
  lemma {:induction false} BlockCells(p: Platform, cx: int, cz: int, m: nat, size: nat, k: nat)
    requires k < |Block(p, cx, cz, m, size)|
    ensures var c := Block(p, cx, cz, m, size)[k];
            cx <= c.position.x < cx + m && cz <= c.position.y < cz + size
            && c.index == p.IndexByPosition(c.position)
  {
    var prefix := Block(p, cx, cz, m - 1, size);
    if k < |prefix| {
      BlockCells(p, cx, cz, m - 1, size, k);
    } else {
      ColumnCells(p, cx + m - 1, cz, size, k - |prefix|);
    }
  }

  /**
   * Every cell `getChildrenInGrid` returns lies on the platform's positive side bound:
   * after the clamp, `x < s_width / 2` and `z < s_length / 2`.
   */
  lemma BlockInsideBounds(p: Platform, cornerX: int, cornerZ: int, sizeX: nat, sizeZ: nat, k: nat)
    requires k < |Block(p, ClampCorner(cornerX, sizeX, p.width), ClampCorner(cornerZ, sizeZ, p.length), sizeX, sizeZ)|
    ensures var c := Block(p, ClampCorner(cornerX, sizeX, p.width), ClampCorner(cornerZ, sizeZ, p.length), sizeX, sizeZ)[k];
            c.position.x < p.width / 2 && c.position.y < p.length / 2 && c.index == p.IndexByPosition(c.position)
  {
    BlockCells(p, ClampCorner(cornerX, sizeX, p.width), ClampCorner(cornerZ, sizeZ, p.length), sizeX, sizeZ, k);
  }
}
