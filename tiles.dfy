/**
  Tile descriptors of one pyramid level and the four comparators the slide
  uses to sort them. Each comparator is a two-step comparison of 64-bit key
  fields; each is proved equal to `LexLess` on its key, a strict total order
  on that key, and blind to every field outside it.
*/
module Tiles {
  import opened FixedWidth
  import opened Lex

  /** A border polygon vertex. */
  datatype Pt = Pt(x: int64, y: int64)

  /** A pixel position, as kept in the level's sorted position index. */
  datatype JpgXY = JpgXY(mxPixel: int64, myPixel: int64)

  /**
    One tile of a level: grid cell (`mx`, `my`), top-left pixel
    (`mxPixel`, `myPixel`), and the fields no comparator reads: the index
    into the sorted position array, file names per direction and z-level,
    the base file name, the border polygon and the z-stack presence flags.
  */
  datatype JpgFileXY = JpgFileXY(
    mx: int64, my: int64,
    mxPixel: int64, myPixel: int64,
    mxSortedIndex: int64,
    mFileName: seq<seq<string>>,
    mBaseFileName: string,
    border: seq<Pt>,
    mzStack: seq<seq<bool>>)

  /** Sort keys, primary coordinate first. */
  function PixelKey(p: JpgXY): Key { (p.mxPixel, p.myPixel) }
  function ScanKey(t: JpgFileXY): Key { (t.myPixel, t.mxPixel) }
  function GridXKey(t: JpgFileXY): Key { (t.mx, t.my) }
  function GridYKey(t: JpgFileXY): Key { (t.my, t.mx) }

  // ---------------------------------------------------------------------
  // The comparators, written as the header writes them.

  /** Orders pixel positions by x, then by y. */
  function JpgXYSortForX(jpgXY1: JpgXY, jpgXY2: JpgXY): (r: bool)
    ensures r <==> LexLess(PixelKey(jpgXY1), PixelKey(jpgXY2))
  {
    if jpgXY1.mxPixel == jpgXY2.mxPixel then
      jpgXY1.myPixel < jpgXY2.myPixel
    else
      jpgXY1.mxPixel < jpgXY2.mxPixel
  }

  /** `JpgFileXY::operator<`: `self < jpgFile` in row-major scan order, pixel y then pixel x. */
  function JpgFileXYLess(self: JpgFileXY, jpgFile: JpgFileXY): (r: bool)
    ensures r <==> LexLess(ScanKey(self), ScanKey(jpgFile))
  {
    if jpgFile.myPixel == self.myPixel then
      self.mxPixel < jpgFile.mxPixel
    else
      self.myPixel < jpgFile.myPixel
  }

  /** Orders tiles by grid column, then grid row. */
  function JpgFileXYSortForX(jpgFile1: JpgFileXY, jpgFile2: JpgFileXY): (r: bool)
    ensures r <==> LexLess(GridXKey(jpgFile1), GridXKey(jpgFile2))
  {
    if jpgFile1.mx == jpgFile2.mx then
      jpgFile1.my < jpgFile2.my
    else
      jpgFile1.mx < jpgFile2.mx
  }

  /** Orders tiles by grid row, then grid column. */
  function JpgFileXYSortForY(jpgFile1: JpgFileXY, jpgFile2: JpgFileXY): (r: bool)
    ensures r <==> LexLess(GridYKey(jpgFile1), GridYKey(jpgFile2))
  {
    if jpgFile2.my == jpgFile1.my then
      jpgFile1.mx < jpgFile2.mx
    else
      jpgFile1.my < jpgFile2.my
  }

  // ---------------------------------------------------------------------
  // Order properties.

  /**
    `JpgXYSortForX` is a strict total order on pixel positions: its key is
    the whole position, so two distinct positions are always ordered.
  */
  lemma JpgXYSortForXStrictTotal(a: JpgXY, b: JpgXY, c: JpgXY)
    ensures !JpgXYSortForX(a, a)
    ensures JpgXYSortForX(a, b) ==> !JpgXYSortForX(b, a)
    ensures JpgXYSortForX(a, b) && JpgXYSortForX(b, c) ==> JpgXYSortForX(a, c)
    ensures a != b <==> (JpgXYSortForX(a, b) || JpgXYSortForX(b, a))
  {
    LexStrictTotal(PixelKey(a), PixelKey(b), PixelKey(c));
  }

  /**
    `operator<` is a strict weak order on tiles: irreflexive, asymmetric and
    transitive; two tiles are unordered exactly when their pixel positions
    coincide, whatever their file names, borders or z-stack flags; and being
    unordered is transitive, as `std::sort` requires.
  */
  lemma JpgFileXYLessStrictWeak(a: JpgFileXY, b: JpgFileXY, c: JpgFileXY)
    ensures !JpgFileXYLess(a, a)
    ensures JpgFileXYLess(a, b) ==> !JpgFileXYLess(b, a)
    ensures JpgFileXYLess(a, b) && JpgFileXYLess(b, c) ==> JpgFileXYLess(a, c)
    ensures ScanKey(a) != ScanKey(b) <==> (JpgFileXYLess(a, b) || JpgFileXYLess(b, a))
    ensures (!JpgFileXYLess(a, b) && !JpgFileXYLess(b, a) && !JpgFileXYLess(b, c) && !JpgFileXYLess(c, b))
            ==> !JpgFileXYLess(a, c) && !JpgFileXYLess(c, a)
  {
    LexStrictTotal(ScanKey(a), ScanKey(b), ScanKey(c));
    LexStrictTotal(ScanKey(a), ScanKey(c), ScanKey(b));
  }

  /** `operator<` reads the pixel row first: a tile in an earlier row comes first whatever its column. */
  lemma JpgFileXYLessRowMajor(a: JpgFileXY, b: JpgFileXY)
    ensures a.myPixel < b.myPixel ==> JpgFileXYLess(a, b)
    ensures a.myPixel == b.myPixel ==> (JpgFileXYLess(a, b) <==> a.mxPixel < b.mxPixel)
  {
  }

  /** `JpgFileXYSortForX` is a strict weak order whose unordered pairs are the tiles sharing a grid cell. */
  lemma JpgFileXYSortForXStrictWeak(a: JpgFileXY, b: JpgFileXY, c: JpgFileXY)
    ensures !JpgFileXYSortForX(a, a)
    ensures JpgFileXYSortForX(a, b) ==> !JpgFileXYSortForX(b, a)
    ensures JpgFileXYSortForX(a, b) && JpgFileXYSortForX(b, c) ==> JpgFileXYSortForX(a, c)
    ensures GridXKey(a) != GridXKey(b) <==> (JpgFileXYSortForX(a, b) || JpgFileXYSortForX(b, a))
    ensures a.mx < b.mx ==> JpgFileXYSortForX(a, b)
  {
    LexStrictTotal(GridXKey(a), GridXKey(b), GridXKey(c));
  }

  /** `JpgFileXYSortForY` is a strict weak order whose unordered pairs are the tiles sharing a grid cell. */
  lemma JpgFileXYSortForYStrictWeak(a: JpgFileXY, b: JpgFileXY, c: JpgFileXY)
    ensures !JpgFileXYSortForY(a, a)
    ensures JpgFileXYSortForY(a, b) ==> !JpgFileXYSortForY(b, a)
    ensures JpgFileXYSortForY(a, b) && JpgFileXYSortForY(b, c) ==> JpgFileXYSortForY(a, c)
    ensures GridYKey(a) != GridYKey(b) <==> (JpgFileXYSortForY(a, b) || JpgFileXYSortForY(b, a))
    ensures a.my < b.my ==> JpgFileXYSortForY(a, b)
  {
    LexStrictTotal(GridYKey(a), GridYKey(b), GridYKey(c));
  }

  /**
    Each tile comparator reads its key and nothing else: replacing either
    argument by a tile with the same key (other file names, border, z-stack
    flags, sorted index, or for the grid orders other pixel coordinates)
    gives the same answer.
  */
  lemma TileComparatorsReadOnlyKeys(a: JpgFileXY, a': JpgFileXY, b: JpgFileXY, b': JpgFileXY)
    ensures ScanKey(a) == ScanKey(a') && ScanKey(b) == ScanKey(b')
            ==> JpgFileXYLess(a, b) == JpgFileXYLess(a', b')
    ensures GridXKey(a) == GridXKey(a') && GridXKey(b) == GridXKey(b')
            ==> JpgFileXYSortForX(a, b) == JpgFileXYSortForX(a', b')
    ensures GridYKey(a) == GridYKey(a') && GridYKey(b) == GridYKey(b')
            ==> JpgFileXYSortForY(a, b) == JpgFileXYSortForY(a', b')
  {
  }

  /** The grid orders consult the grid cell, never the pixel position. */
  lemma GridOrdersIgnorePixels(a: JpgFileXY, b: JpgFileXY, px: int64, py: int64)
    ensures JpgFileXYSortForX(a.(mxPixel := px, myPixel := py), b) == JpgFileXYSortForX(a, b)
    ensures JpgFileXYSortForY(a.(mxPixel := px, myPixel := py), b) == JpgFileXYSortForY(a, b)
  {
  }

  // ---------------------------------------------------------------------
  // What the orders give the level's two index arrays.

  /** The sorted pixel position index: strictly increasing under `JpgXYSortForX`. */
  ghost predicate SortedPixelIndex(s: seq<JpgXY>) {
    forall i, j :: 0 <= i < j < |s| ==> JpgXYSortForX(s[i], s[j])
  }

  /** A tile array in scan order, strictly increasing under `operator<`. */
  ghost predicate InScanOrder(s: seq<JpgFileXY>) {
    forall i, j :: 0 <= i < j < |s| ==> JpgFileXYLess(s[i], s[j])
  }

  /** A strictly sorted pixel index holds no position twice. */
  lemma SortedPixelIndexDeduplicated(s: seq<JpgXY>, i: int, j: int)
    requires SortedPixelIndex(s)
    requires 0 <= i < |s| && 0 <= j < |s| && i != j
    ensures s[i] != s[j]
  {
    assert StrictlySortedBy(s, PixelKey);
    StrictlySortedDistinct(s, PixelKey, i, j);
  }

  /** The set of positions alone determines the sorted pixel index. */
  lemma SortedPixelIndexUnique(s: seq<JpgXY>, t: seq<JpgXY>)
    requires SortedPixelIndex(s) && SortedPixelIndex(t)
    requires forall p :: p in s <==> p in t
    ensures s == t
  {
    assert StrictlySortedBy(s, PixelKey);
    assert StrictlySortedBy(t, PixelKey);
    StrictlySortedUnique(s, t, PixelKey);
  }

  /**
    When no two tiles share a pixel position, sorting a tile array with
    `operator<` has exactly one outcome: any two scan-ordered
    rearrangements of the same tiles are equal.
  */
  lemma ScanOrderUnique(s: seq<JpgFileXY>, t: seq<JpgFileXY>)
    requires InScanOrder(s) && InScanOrder(t)
    requires multiset(s) == multiset(t)
    ensures s == t
  {
    assert StrictlySortedBy(s, ScanKey);
    assert StrictlySortedBy(t, ScanKey);
    forall x
      ensures x in s <==> x in t
    {
      assert x in s <==> x in multiset(s);
      assert x in t <==> x in multiset(t);
    }
    StrictlySortedUnique(s, t, ScanKey);
  }
}
