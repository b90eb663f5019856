# Tile ordering and slide accessors of the composite slide reader

This project models the visible core of `include/composite.h` of
olyvslideconv, the reader that composites a whole-slide microscopy image
from a pyramid of tiled levels. Two parts of that header carry code:

- **The tile ordering comparators** used to sort a level's tile array
  (`mxyArr`) and its pixel position index (`mxSortedArr`):
  `JpgXYSortForX` (pixel x, then pixel y), `JpgFileXY::operator<` (pixel y,
  then pixel x: row-major scan order), `JpgFileXYSortForX` (grid column,
  then grid row) and `JpgFileXYSortForY` (grid row, then grid column).
  Each is written exactly as the header's `if/else`. Each is proved equal
  to `Lex.LexLess`, a separately defined lexicographic order, on its key
  pair. From that the model proves what `std::sort` needs. Every comparator
  is irreflexive, asymmetric and transitive. Two tiles are unordered
  exactly when their keys are equal. Fields outside the key (file names,
  border, z-stack flags, and pixel position for the grid orders) never
  change the answer. As a consequence, a strictly sorted array is
  determined by its elements.
- **The guarded accessors of `CompositeSlide`**. Each slide-wide getter
  returns its stored value when `mValidObject` holds and 0 otherwise. Each
  per-level getter returns the level's stored value only when three
  conditions hold: the slide is valid, `level < mConf.size()`, and
  `mConf[level]->mFound`. Otherwise it returns 0. `getTileXYArray` returns
  `None` (the null pointer) under the same failed guard.

Modules:
- `FixedWidth` holds the `int32`, `int64` and `uint64` (`size_t`) ranges of the header's fields.
- `Wrappers` holds `Option`.
- `Lex` holds the reference order and the generic uniqueness of strictly sorted arrays.
- `Tiles` holds `Pt`, `JpgXY`, `JpgFileXY` and the comparators.
- `Slide` holds `IniConf`, `CompositeSlide` and the accessors.

The slide and its level records are immutable values. Every accessor is a
function of the slide, so evaluating one cannot change the slide: the
accessors' read-only promise holds by construction.

## Model

| member | source | states |
|---|---|---|
| `Tiles.JpgXYSortForX` | include/composite.h:75-85 | true exactly when the first position is lexicographically below the second on (x, y) |
| `Tiles.JpgFileXYLess` | include/composite.h:98-108 | `operator<`: true exactly when `self` is lexicographically below `jpgFile` on (pixel y, pixel x) |
| `Tiles.JpgFileXYSortForX` | include/composite.h:115-125 | true exactly when the first tile is lexicographically below the second on (grid x, grid y) |
| `Tiles.JpgFileXYSortForY` | include/composite.h:131-141 | true exactly when the first tile is lexicographically below the second on (grid y, grid x) |
| `Tiles.JpgXYSortForXStrictTotal` | include/composite.h:75-85 | irreflexive, asymmetric, transitive, and any two distinct positions are ordered one way or the other |
| `Tiles.JpgFileXYLessStrictWeak` | include/composite.h:98-108 | irreflexive, asymmetric, transitive; two tiles are unordered iff their pixel positions are equal; being unordered is transitive |
| `Tiles.JpgFileXYLessRowMajor` | include/composite.h:98-108 | a tile in an earlier pixel row comes first whatever its column; within a row, the smaller pixel x comes first |
| `Tiles.JpgFileXYSortForXStrictWeak` | include/composite.h:115-125 | irreflexive, asymmetric, transitive; two tiles are unordered iff they share a grid cell; a smaller grid x comes first |
| `Tiles.JpgFileXYSortForYStrictWeak` | include/composite.h:131-141 | irreflexive, asymmetric, transitive; two tiles are unordered iff they share a grid cell; a smaller grid y comes first |
| `Tiles.TileComparatorsReadOnlyKeys` | include/composite.h:98-141 | replacing an argument by a tile with the same key leaves each tile comparator's answer unchanged, whatever the other fields hold |
| `Tiles.GridOrdersIgnorePixels` | include/composite.h:115-141 | changing a tile's pixel position never changes either grid order |
| `Tiles.SortedPixelIndexDeduplicated` | include/composite.h:75-85 | an index strictly sorted by `JpgXYSortForX` holds no position twice |
| `Tiles.SortedPixelIndexUnique` | include/composite.h:75-85 | two strictly sorted pixel indexes with the same positions are equal |
| `Tiles.ScanOrderUnique` | include/composite.h:98-108 | two tile arrays strictly sorted by `operator<` that hold the same tiles are equal, so sorting them has one outcome |
| `Slide.GetTotalZLevels` | include/composite.h:222 | the stored total z-level count on a valid slide, 0 on an invalid one |
| `Slide.GetTotalBottomZLevels` | include/composite.h:223 | the stored bottom z-level count on a valid slide, 0 on an invalid one |
| `Slide.GetTotalTopZLevels` | include/composite.h:224 | the stored top z-level count on a valid slide, 0 on an invalid one |
| `Slide.GetMagnification` | include/composite.h:227 | the stored magnification on a valid slide, 0 on an invalid one |
| `Slide.GetQuality` | include/composite.h:228 | the level's quality when the slide is valid, the level in range and found; 0 in each other case |
| `Slide.GetBaseWidth` | include/composite.h:229 | the stored base width on a valid slide, 0 on an invalid one |
| `Slide.GetBaseHeight` | include/composite.h:230 | the stored base height on a valid slide, 0 on an invalid one |
| `Slide.GetPixelWidth` | include/composite.h:231 | the level's tile width under the three-part guard; 0 otherwise |
| `Slide.GetPixelHeight` | include/composite.h:232 | the level's tile height under the three-part guard; 0 otherwise |
| `Slide.GetActualWidth` | include/composite.h:233 | the level's total canvas width under the three-part guard; 0 otherwise |
| `Slide.GetActualHeight` | include/composite.h:234 | the level's total canvas height under the three-part guard; 0 otherwise |
| `Slide.GetTotalTiles` | include/composite.h:237 | the level's tile count under the three-part guard; 0 otherwise |
| `Slide.GetTileXYArray` | include/composite.h:240 | `None` exactly when the guard fails; otherwise the level's own tile array |
| `Slide.InvalidSlideIsNeutral` | include/composite.h:222-240 | on a slide that did not open, every integer accessor answers 0 and the tile array is `None`, at every level |
| `Slide.MissingLevelIsNeutral` | include/composite.h:228-240 | for a level out of range or not found, every per-level accessor answers 0 or `None`, even on a valid slide |
| `Slide.NonZeroMeansTilesAvailable` | include/composite.h:228-240 | a non-zero answer from any per-level accessor means the tile array of that same level is available |
| `Slide.AvailableLevelIsStored` | include/composite.h:228-240 | when the tile array is available, every per-level accessor returns the field of the same level record |
| `Slide.AccessorsReadOnlyTheirLevel` | include/composite.h:222-240 | replacing another level's record changes no per-level answer at this level, and changes no slide-wide answer |

## Left out

- `open`, both `read` overloads, `allocate`, `findXYOffset`, `loadFullImage`, `blendLevelsRegionScan`, `drawBorder`, `setOrientation`, `checkLevel`, `checkZLevel`, `isPreviewSlide`, `testHeader`, `drawXHighlight` and `drawYHighlight`: the header only declares them. Their bodies are not part of this model, so any model of them would be invented.
- `initialize`, `close`, the constructor and the destructor: declared only.
- `isValidObject` (include/composite.h:202) returns the field `mValidObject`; the model reads that field directly.
- `getXAdj` and `getYAdj`: they return `double` scale factors, which this model does not represent. Their fallback under the failed guard is 1, not 0.
- `JpgFileXYSortForXAdj` and `CVMatchCompare`: they compare floating-point values.
- The OpenCV and ImageMagick backends, `separator()` (a platform constant), and the caching of the registration offset are outside this model.
- `IniConf` and `CompositeSlide` fields that no modelled accessor reads are not represented. These include grid bounds, step sizes, adjustment factors, orientation, background colour and offsets.
- `mConf` is a vector of pointers in the header. The model holds the records themselves, so there is no null entry to dereference.
- `Slide.GetTileXYArray` returns the level's tile sequence as a value. The header returns a pointer through which the caller could change the level's array, and that aliasing is not modelled.
- The order in which `std::sort` is applied to `mxyArr` and `mxSortedArr` is not visible in the header. The index lemmas state what strict sortedness implies, not that the arrays are sorted.
