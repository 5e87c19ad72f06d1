/** The tile metadata builder: each face is cut into sNx x sNy blocks (tiles)
    and six per-cell arrays record the block's two corner coordinates and the
    cell's 1-based local column and row inside its block. */
module Tiles {

  /** The six tile fields, in the order the source lists them. */
  datatype TileKey = XC11 | YC11 | XCNINJ | YCNINJ | I | J

  const TileKeys: seq<TileKey> := [XC11, YC11, XCNINJ, YCNINJ, I, J]

  /** The list of keys names every key once. */
  lemma AllKeysListed()
    ensures forall k: TileKey :: k in TileKeys
    ensures forall p, q | 0 <= p < q < |TileKeys| :: TileKeys[p] != TileKeys[q]
  {
    forall k: TileKey ensures k in TileKeys {
      match k
      case XC11 => assert TileKeys[0] == k;
      case YC11 => assert TileKeys[1] == k;
      case XCNINJ => assert TileKeys[2] == k;
      case YCNINJ => assert TileKeys[3] == k;
      case I => assert TileKeys[4] == k;
      case J => assert TileKeys[5] == k;
    }
  }

  /** The key as it appears in the output field names. */
  function KeyName(k: TileKey): string
  {
    match k
    case XC11 => "XC11"
    case YC11 => "YC11"
    case XCNINJ => "XCNINJ"
    case YCNINJ => "YCNINJ"
    case I => "i"
    case J => "j"
  }

  /** The six per-cell arrays of one face. */
  datatype FaceTiles = FaceTiles(
    xc11: array2<int>, yc11: array2<int>, xcninj: array2<int>, ycninj: array2<int>,
    i: array2<int>, j: array2<int>)

  function Field(t: FaceTiles, k: TileKey): array2<int>
  {
    match k
    case XC11 => t.xc11
    case YC11 => t.yc11
    case XCNINJ => t.xcninj
    case YCNINJ => t.ycninj
    case I => t.i
    case J => t.j
  }

  predicate SameShape(a: array2<int>, b: array2<int>)
  {
    a.Length0 == b.Length0 && a.Length1 == b.Length1
  }

  /** Cell (r, c) of an h x w face lies in the part of the face that whole
      sx x sy blocks cover. */
  predicate Covered(h: int, w: int, sx: int, sy: int, r: int, c: int)
    requires sx > 0 && sy > 0
  {
    r < sx * (h / sx) && c < sy * (w / sy)
  }

  lemma MulNonNeg(a: int, b: int)
    requires a >= 0 && b >= 0
    ensures a * b >= 0
  {
  }

  /** A cell below s * n lies in a block whose first and last cells are also
      below s * n. */
  lemma {:induction false} BlockWithin(r: int, s: int, n: int)
    requires s > 0 && 0 <= r < s * n
    ensures 0 <= r / s < n
    ensures 0 <= s * (r / s) <= r <= s * (r / s) + s - 1 < s * n
  {
    var q, m := r / s, r % s;
    assert r == s * q + m && 0 <= m < s;
    if q < 0 {
      MulNonNeg(s, -q);
      assert false;
    }
    if q >= n {
      MulNonNeg(s, q - n);
      assert false;
    }
    MulNonNeg(s, n - q - 1);
    assert s * (n - q - 1) == s * n - s * q - s;
  }

  /** A whole multiple of s fits in n: s * (n / s) <= n. */
  lemma {:induction false} WholeBlocksFit(n: int, s: int)
    requires s > 0 && n >= 0
    ensures 0 <= s * (n / s) <= n
  {
    var q, m := n / s, n % s;
    assert n == s * q + m && 0 <= m < s;
    if q < 0 {
      MulNonNeg(s, -q);
      assert false;
    }
  }

  /** A cell from s * q to s * q + s - 1 lies in block q at offset r - s * q. */
  lemma {:induction false} BlockOf(r: int, s: int, q: int)
    requires s > 0 && s * q <= r < s * q + s
    ensures r / s == q && s * (r / s) == s * q
  {
    var d, m := r / s, r % s;
    assert r == s * d + m && 0 <= m < s;
    if d > q {
      MulNonNeg(s, d - q - 1);
      assert false;
    }
    if d < q {
      MulNonNeg(s, q - d - 1);
      assert false;
    }
  }

  /** Where a cell of block q (of n whole blocks of size s) lies. */
  lemma BlockPosition(r: int, s: int, q: int, n: int)
    requires s > 0 && 0 <= q < n / s && s * q <= r < s * q + s
    ensures r / s == q && s * (r / s) == s * q
    ensures s * q + s <= s * (n / s) <= n
  {
    BlockOf(r, s, q);
    WholeBlocksFit(n, s);
    MulNonNeg(s, n / s - q - 1);
  }

  /** What cell (r, c) of a face holds after the tiling, for each field: the
      first corner of its block (XC11/YC11), the opposite corner (XCNINJ/YCNINJ),
      its 1-based column in the block (i) or row in the block (j); zero for a
      cell outside the covered part. */
  function Expected(k: TileKey, xc: array2<int>, yc: array2<int>, sx: int, sy: int, r: int, c: int): int
    reads xc, yc
    requires SameShape(xc, yc) && sx > 0 && sy > 0
    requires 0 <= r < xc.Length0 && 0 <= c < xc.Length1
  {
    if !Covered(xc.Length0, xc.Length1, sx, sy, r, c) then 0
    else
      BlockWithin(r, sx, xc.Length0 / sx);
      BlockWithin(c, sy, xc.Length1 / sy);
      WholeBlocksFit(xc.Length0, sx);
      WholeBlocksFit(xc.Length1, sy);
      var r0, c0 := sx * (r / sx), sy * (c / sy);
      match k
      case XC11 => xc[r0, c0]
      case YC11 => yc[r0, c0]
      case XCNINJ => xc[r0 + sx - 1, c0 + sy - 1]
      case YCNINJ => yc[r0 + sx - 1, c0 + sy - 1]
      case I => c - c0 + 1
      case J => r - r0 + 1
  }

  /** Block (ii, jj) of a face: every cell (r, c) of it, at offset
      (r - sx*ii, c - sy*jj), gets the face values at the block's corners
      (sx*ii, sy*jj) and (sx*ii+sx-1, sy*jj+sy-1), i = its column offset + 1
      and j = its row offset + 1. */
  lemma BlockCell(xc: array2<int>, yc: array2<int>, sx: int, sy: int,
                  ii: int, jj: int, r: int, c: int)
    requires SameShape(xc, yc) && sx > 0 && sy > 0
    requires 0 <= ii < xc.Length0 / sx && 0 <= jj < xc.Length1 / sy
    requires sx * ii <= r < sx * ii + sx && sy * jj <= c < sy * jj + sy
    ensures sx * ii + sx <= xc.Length0 && sy * jj + sy <= xc.Length1
    ensures Expected(XC11, xc, yc, sx, sy, r, c) == xc[sx * ii, sy * jj]
    ensures Expected(YC11, xc, yc, sx, sy, r, c) == yc[sx * ii, sy * jj]
    ensures Expected(XCNINJ, xc, yc, sx, sy, r, c) == xc[sx * ii + sx - 1, sy * jj + sy - 1]
    ensures Expected(YCNINJ, xc, yc, sx, sy, r, c) == yc[sx * ii + sx - 1, sy * jj + sy - 1]
    ensures Expected(I, xc, yc, sx, sy, r, c) == c - sy * jj + 1
    ensures Expected(J, xc, yc, sx, sy, r, c) == r - sx * ii + 1
  {
    BlockPosition(r, sx, ii, xc.Length0);
    BlockPosition(c, sy, jj, xc.Length1);
  }

  /** Every cell lies in the block its division by the block size names. */
  lemma {:induction false} InOwnBlock(r: int, s: int)
    requires s > 0 && r >= 0
    ensures 0 <= r / s && s * (r / s) <= r < s * (r / s) + s
  {
    var q, m := r / s, r % s;
    assert r == s * q + m && 0 <= m < s;
    if q < 0 {
      MulNonNeg(s, -q);
      assert false;
    }
  }

  /** The four corner values are the same for all cells of one block. */
  lemma CornersConstantInBlock(xc: array2<int>, yc: array2<int>, sx: int, sy: int,
                               r1: int, c1: int, r2: int, c2: int)
    requires SameShape(xc, yc) && sx > 0 && sy > 0
    requires 0 <= r1 < xc.Length0 && 0 <= c1 < xc.Length1
    requires 0 <= r2 < xc.Length0 && 0 <= c2 < xc.Length1
    requires Covered(xc.Length0, xc.Length1, sx, sy, r1, c1)
    requires r1 / sx == r2 / sx && c1 / sy == c2 / sy
    ensures Expected(XC11, xc, yc, sx, sy, r1, c1) == Expected(XC11, xc, yc, sx, sy, r2, c2)
    ensures Expected(YC11, xc, yc, sx, sy, r1, c1) == Expected(YC11, xc, yc, sx, sy, r2, c2)
    ensures Expected(XCNINJ, xc, yc, sx, sy, r1, c1) == Expected(XCNINJ, xc, yc, sx, sy, r2, c2)
    ensures Expected(YCNINJ, xc, yc, sx, sy, r1, c1) == Expected(YCNINJ, xc, yc, sx, sy, r2, c2)
  {
    var ii, jj := r1 / sx, c1 / sy;
    BlockWithin(r1, sx, xc.Length0 / sx);
    BlockWithin(c1, sy, xc.Length1 / sy);
    InOwnBlock(r1, sx);
    InOwnBlock(c1, sy);
    InOwnBlock(r2, sx);
    InOwnBlock(c2, sy);
    BlockCell(xc, yc, sx, sy, ii, jj, r1, c1);
    BlockCell(xc, yc, sx, sy, ii, jj, r2, c2);
  }

  /** The same facts cell by cell: a covered cell (r, c) lies in block
      (r / sx, c / sy); it holds that block's corner values, i = c % sy + 1 in
      1..sy and j = r % sx + 1 in 1..sx. */
  lemma TileOfCell(xc: array2<int>, yc: array2<int>, sx: int, sy: int, r: int, c: int)
    requires SameShape(xc, yc) && sx > 0 && sy > 0
    requires 0 <= r < xc.Length0 && 0 <= c < xc.Length1
    requires Covered(xc.Length0, xc.Length1, sx, sy, r, c)
    ensures 0 <= sx * (r / sx) && sx * (r / sx) + sx <= xc.Length0
    ensures 0 <= sy * (c / sy) && sy * (c / sy) + sy <= xc.Length1
    ensures Expected(XC11, xc, yc, sx, sy, r, c) == xc[sx * (r / sx), sy * (c / sy)]
    ensures Expected(YC11, xc, yc, sx, sy, r, c) == yc[sx * (r / sx), sy * (c / sy)]
    ensures Expected(XCNINJ, xc, yc, sx, sy, r, c)
         == xc[sx * (r / sx) + sx - 1, sy * (c / sy) + sy - 1]
    ensures Expected(YCNINJ, xc, yc, sx, sy, r, c)
         == yc[sx * (r / sx) + sx - 1, sy * (c / sy) + sy - 1]
    ensures Expected(I, xc, yc, sx, sy, r, c) == c % sy + 1
    ensures Expected(J, xc, yc, sx, sy, r, c) == r % sx + 1
  {
    BlockWithin(r, sx, xc.Length0 / sx);
    BlockWithin(c, sy, xc.Length1 / sy);
    Remainder(r, sx);
    Remainder(c, sy);
    BlockCell(xc, yc, sx, sy, r / sx, c / sy, r, c);
  }

  /** The offset of r inside its block is its remainder. */
  lemma Remainder(r: int, s: int)
    requires s > 0
    ensures r - s * (r / s) == r % s
  {
  }

  /** Local indices: within the covered part i runs over 1..sy and j over
      1..sx; outside it every field keeps the zero it started with. */
  lemma LocalIndexRange(xc: array2<int>, yc: array2<int>, sx: int, sy: int, r: int, c: int)
    requires SameShape(xc, yc) && sx > 0 && sy > 0
    requires 0 <= r < xc.Length0 && 0 <= c < xc.Length1
    ensures Covered(xc.Length0, xc.Length1, sx, sy, r, c) ==>
      1 <= Expected(I, xc, yc, sx, sy, r, c) <= sy && 1 <= Expected(J, xc, yc, sx, sy, r, c) <= sx
    ensures !Covered(xc.Length0, xc.Length1, sx, sy, r, c) ==>
      forall k :: Expected(k, xc, yc, sx, sy, r, c) == 0
  {
  }

  /** Field k of a face holds, at every cell, what `Expected` says. */
  ghost predicate FieldTiled(a: array2<int>, k: TileKey, xc: array2<int>, yc: array2<int>,
                             sx: int, sy: int)
    reads a, xc, yc
    requires SameShape(xc, yc) && sx > 0 && sy > 0
  {
    && SameShape(a, xc)
    && forall r, c | 0 <= r < xc.Length0 && 0 <= c < xc.Length1 ::
         a[r, c] == Expected(k, xc, yc, sx, sy, r, c)
  }

  /** All six fields of a face are tiled. */
  ghost predicate FaceTiled(t: FaceTiles, xc: array2<int>, yc: array2<int>, sx: int, sy: int)
    reads t.xc11, t.yc11, t.xcninj, t.ycninj, t.i, t.j, xc, yc
    requires SameShape(xc, yc) && sx > 0 && sy > 0
  {
    && FieldTiled(t.xc11, XC11, xc, yc, sx, sy)
    && FieldTiled(t.yc11, YC11, xc, yc, sx, sy)
    && FieldTiled(t.xcninj, XCNINJ, xc, yc, sx, sy)
    && FieldTiled(t.ycninj, YCNINJ, xc, yc, sx, sy)
    && FieldTiled(t.i, I, xc, yc, sx, sy)
    && FieldTiled(t.j, J, xc, yc, sx, sy)
  }

  /** Each field of a tiled face, chosen by its key. */
  lemma FieldOfTiledFace(t: FaceTiles, k: TileKey, xc: array2<int>, yc: array2<int>,
                         sx: int, sy: int)
    requires SameShape(xc, yc) && sx > 0 && sy > 0
    requires FaceTiled(t, xc, yc, sx, sy)
    ensures FieldTiled(Field(t, k), k, xc, yc, sx, sy)
  {
  }

  /** Field k of a face after the blocks before (ii, jj) (rows of blocks
      first) are done: those cells hold their final value, the rest zero. */
  ghost predicate TiledUpTo(a: array2<int>, k: TileKey, xc: array2<int>, yc: array2<int>,
                            sx: int, sy: int, ii: int, jj: int)
    reads a, xc, yc
    requires SameShape(xc, yc) && SameShape(a, xc) && sx > 0 && sy > 0
  {
    forall r, c | 0 <= r < a.Length0 && 0 <= c < a.Length1 ::
      a[r, c] == if r < sx * ii || (r < sx * ii + sx && c < sy * jj)
                 then Expected(k, xc, yc, sx, sy, r, c) else 0
  }

  /** Once a whole row of blocks is done, the cells right of the last whole
      block in that row are already final: they stay zero. */
  lemma RowOfBlocksDone(a: array2<int>, k: TileKey, xc: array2<int>, yc: array2<int>,
                        sx: int, sy: int, ii: int)
    requires SameShape(xc, yc) && SameShape(a, xc) && sx > 0 && sy > 0
    requires TiledUpTo(a, k, xc, yc, sx, sy, ii, xc.Length1 / sy)
    ensures TiledUpTo(a, k, xc, yc, sx, sy, ii + 1, 0)
  {
    assert sx * (ii + 1) == sx * ii + sx;
  }

  /** When every row of whole blocks is done, the field is final. */
  lemma AllBlocksDone(a: array2<int>, k: TileKey, xc: array2<int>, yc: array2<int>,
                      sx: int, sy: int)
    requires SameShape(xc, yc) && SameShape(a, xc) && sx > 0 && sy > 0
    requires TiledUpTo(a, k, xc, yc, sx, sy, xc.Length0 / sx, 0)
    ensures FieldTiled(a, k, xc, yc, sx, sy)
  {
  }

  /** The slice assignment of field k over block (ii, jj): every cell of the
      block gets the block's corner value (XC11 ... YCNINJ) or its local
      column (i) or row (j) number; no other cell changes. */
  method FillBlock(a: array2<int>, k: TileKey, xc: array2<int>, yc: array2<int>,
                   sx: int, sy: int, ii: int, jj: int)
    requires SameShape(xc, yc) && SameShape(a, xc) && sx > 0 && sy > 0
    requires 0 <= ii < xc.Length0 / sx && 0 <= jj < xc.Length1 / sy
    requires a != xc && a != yc
    requires TiledUpTo(a, k, xc, yc, sx, sy, ii, jj)
    modifies a
    ensures TiledUpTo(a, k, xc, yc, sx, sy, ii, jj + 1)
  {
    BlockPosition(sx * ii, sx, ii, xc.Length0);
    BlockPosition(sy * jj, sy, jj, xc.Length1);
    var r0, c0 := sx * ii, sy * jj;
    match k {
      case XC11 =>
        var v := xc[r0, c0];
        forall r, c | r0 <= r < r0 + sx && c0 <= c < c0 + sy { a[r, c] := v; }
      case YC11 =>
        var v := yc[r0, c0];
        forall r, c | r0 <= r < r0 + sx && c0 <= c < c0 + sy { a[r, c] := v; }
      case XCNINJ =>
        var v := xc[r0 + sx - 1, c0 + sy - 1];
        forall r, c | r0 <= r < r0 + sx && c0 <= c < c0 + sy { a[r, c] := v; }
      case YCNINJ =>
        var v := yc[r0 + sx - 1, c0 + sy - 1];
        forall r, c | r0 <= r < r0 + sx && c0 <= c < c0 + sy { a[r, c] := v; }
      case I =>
        forall r, c | r0 <= r < r0 + sx && c0 <= c < c0 + sy { a[r, c] := c - c0 + 1; }
      case J =>
        forall r, c | r0 <= r < r0 + sx && c0 <= c < c0 + sy { a[r, c] := r - r0 + 1; }
    }
    forall r, c | r0 <= r < r0 + sx && c0 <= c < c0 + sy
      ensures a[r, c] == Expected(k, xc, yc, sx, sy, r, c)
    {
      BlockCell(xc, yc, sx, sy, ii, jj, r, c);
    }
  }

  /** The six arrays of a face are shaped like the face. */
  predicate Shaped(t: FaceTiles, xc: array2<int>)
  {
    && SameShape(t.xc11, xc) && SameShape(t.yc11, xc) && SameShape(t.xcninj, xc)
    && SameShape(t.ycninj, xc) && SameShape(t.i, xc) && SameShape(t.j, xc)
  }

  /** The six arrays are distinct from each other and from the face arrays,
      as each is allocated on its own. */
  predicate Separate(t: FaceTiles, xc: array2<int>, yc: array2<int>)
  {
    && t.xc11 != t.yc11 && t.xc11 != t.xcninj && t.xc11 != t.ycninj && t.xc11 != t.i
    && t.xc11 != t.j && t.yc11 != t.xcninj && t.yc11 != t.ycninj && t.yc11 != t.i
    && t.yc11 != t.j && t.xcninj != t.ycninj && t.xcninj != t.i && t.xcninj != t.j
    && t.ycninj != t.i && t.ycninj != t.j && t.i != t.j
    && xc != t.xc11 && xc != t.yc11 && xc != t.xcninj && xc != t.ycninj && xc != t.i
    && xc != t.j && yc != t.xc11 && yc != t.yc11 && yc != t.xcninj && yc != t.ycninj
    && yc != t.i && yc != t.j
  }

  /** Every field of the face is done up to block (ii, jj). */
  ghost predicate FaceTiledUpTo(t: FaceTiles, xc: array2<int>, yc: array2<int>,
                                sx: int, sy: int, ii: int, jj: int)
    reads t.xc11, t.yc11, t.xcninj, t.ycninj, t.i, t.j, xc, yc
    requires SameShape(xc, yc) && sx > 0 && sy > 0
    requires Shaped(t, xc)
  {
    && TiledUpTo(t.xc11, XC11, xc, yc, sx, sy, ii, jj)
    && TiledUpTo(t.yc11, YC11, xc, yc, sx, sy, ii, jj)
    && TiledUpTo(t.xcninj, XCNINJ, xc, yc, sx, sy, ii, jj)
    && TiledUpTo(t.ycninj, YCNINJ, xc, yc, sx, sy, ii, jj)
    && TiledUpTo(t.i, I, xc, yc, sx, sy, ii, jj)
    && TiledUpTo(t.j, J, xc, yc, sx, sy, ii, jj)
  }

  /** One pass of the innermost loop body: the six slice assignments for
      block (ii, jj). */
  method FillBlocks(t: FaceTiles, xc: array2<int>, yc: array2<int>,
                    sx: int, sy: int, ii: int, jj: int)
    requires SameShape(xc, yc) && sx > 0 && sy > 0
    requires Shaped(t, xc)
    requires 0 <= ii < xc.Length0 / sx && 0 <= jj < xc.Length1 / sy
    requires Separate(t, xc, yc)
    requires FaceTiledUpTo(t, xc, yc, sx, sy, ii, jj)
    modifies t.xc11, t.yc11, t.xcninj, t.ycninj, t.i, t.j
    ensures FaceTiledUpTo(t, xc, yc, sx, sy, ii, jj + 1)
  {
    FillBlock(t.xc11, XC11, xc, yc, sx, sy, ii, jj);
    FillBlock(t.yc11, YC11, xc, yc, sx, sy, ii, jj);
    FillBlock(t.xcninj, XCNINJ, xc, yc, sx, sy, ii, jj);
    FillBlock(t.ycninj, YCNINJ, xc, yc, sx, sy, ii, jj);
    FillBlock(t.i, I, xc, yc, sx, sy, ii, jj);
    FillBlock(t.j, J, xc, yc, sx, sy, ii, jj);
  }

  /** The tiling of one face. Six zero-filled arrays shaped like the face are
      allocated; then each whole sx x sy block, taken row of blocks by row of
      blocks, has its cells set to the block's corner values and to the
      cells' local column and row numbers. The face arrays are only read. */
  method TileFace(xc: array2<int>, yc: array2<int>, sx: int, sy: int) returns (t: FaceTiles)
    requires SameShape(xc, yc) && sx > 0 && sy > 0
    ensures fresh(t.xc11) && fresh(t.yc11) && fresh(t.xcninj) && fresh(t.ycninj)
    ensures fresh(t.i) && fresh(t.j)
    ensures FaceTiled(t, xc, yc, sx, sy)
  {
    var h, w := xc.Length0, xc.Length1;
    var xc11 := new int[h, w]((r, c) => 0);
    var yc11 := new int[h, w]((r, c) => 0);
    var xcninj := new int[h, w]((r, c) => 0);
    var ycninj := new int[h, w]((r, c) => 0);
    var iTile := new int[h, w]((r, c) => 0);
    var jTile := new int[h, w]((r, c) => 0);
    t := FaceTiles(xc11, yc11, xcninj, ycninj, iTile, jTile);
    assert Separate(t, xc, yc);
    var ii := 0;
    while ii < h / sx
      invariant 0 <= ii <= h / sx
      invariant FaceTiledUpTo(t, xc, yc, sx, sy, ii, 0)
    {
      var jj := 0;
      while jj < w / sy
        invariant 0 <= jj <= w / sy
        invariant FaceTiledUpTo(t, xc, yc, sx, sy, ii, jj)
      {
        FillBlocks(t, xc, yc, sx, sy, ii, jj);
        jj := jj + 1;
      }
      RowOfBlocksDone(xc11, XC11, xc, yc, sx, sy, ii);
      RowOfBlocksDone(yc11, YC11, xc, yc, sx, sy, ii);
      RowOfBlocksDone(xcninj, XCNINJ, xc, yc, sx, sy, ii);
      RowOfBlocksDone(ycninj, YCNINJ, xc, yc, sx, sy, ii);
      RowOfBlocksDone(iTile, I, xc, yc, sx, sy, ii);
      RowOfBlocksDone(jTile, J, xc, yc, sx, sy, ii);
      ii := ii + 1;
    }
    AllBlocksDone(xc11, XC11, xc, yc, sx, sy);
    AllBlocksDone(yc11, YC11, xc, yc, sx, sy);
    AllBlocksDone(xcninj, XCNINJ, xc, yc, sx, sy);
    AllBlocksDone(ycninj, YCNINJ, xc, yc, sx, sy);
    AllBlocksDone(iTile, I, xc, yc, sx, sy);
    AllBlocksDone(jTile, J, xc, yc, sx, sy);
  }

  /** The X and Y coordinate faces pair up, face by face, with equal shapes. */
  predicate FacesMatch(xs: seq<array2<int>>, ys: seq<array2<int>>)
  {
    |xs| == |ys| && forall f | 0 <= f < |xs| :: SameShape(xs[f], ys[f])
  }

  /** The loop over faces: each face is tiled on its own, into arrays
      allocated for it. */
  method TileFaces(xs: seq<array2<int>>, ys: seq<array2<int>>, sx: int, sy: int)
    returns (tiles: seq<FaceTiles>)
    requires FacesMatch(xs, ys) && sx > 0 && sy > 0
    ensures |tiles| == |xs|
    ensures forall f | 0 <= f < |xs| :: FaceTiled(tiles[f], xs[f], ys[f], sx, sy)
  {
    tiles := [];
    for f := 0 to |xs|
      invariant |tiles| == f
      invariant forall g | 0 <= g < f :: FaceTiled(tiles[g], xs[g], ys[g], sx, sy)
    {
      var t := TileFace(xs[f], ys[f], sx, sy);
      tiles := tiles + [t];
    }
  }
}
