/**
  The per-level configuration records and the read-only accessor layer of
  `CompositeSlide`. Every accessor is total: when the slide did not open, or
  the requested level is out of range or was not found, it answers a neutral
  value (0, or no tile array) instead of failing.
*/
module Slide {
  import opened FixedWidth
  import opened Wrappers
  import opened Tiles

  /** One pyramid level's configuration, as far as the accessors read it. */
  datatype IniConf = IniConf(
    mFound: bool,
    mQuality: int32,
    mPixelWidth: int64, mPixelHeight: int64,
    mTotalWidth: int64, mTotalHeight: int64,
    mTotalTiles: int64,
    mxyArr: seq<JpgFileXY>,
    mxSortedArr: seq<JpgXY>)

  /** The slide: validity, one configuration per level, and the slide-wide values. */
  datatype CompositeSlide = CompositeSlide(
    mValidObject: bool,
    mConf: seq<IniConf>,
    mbaseWidth: int64, mbaseHeight: int64,
    mmagnification: int32,
    mTotalZLevels: int32, mTotalTopZLevels: int32, mTotalBottomZLevels: int32)

  /** The guard every per-level accessor tests, in the header's order. */
  predicate LevelAvailable(s: CompositeSlide, level: uint64) {
    s.mValidObject && (level as int) < |s.mConf| && s.mConf[level as int].mFound
  }

  // ---------------------------------------------------------------------
  // Slide-wide accessors: the stored value when valid, else 0.

  function GetTotalZLevels(s: CompositeSlide): (r: int32)
    ensures s.mValidObject ==> r == s.mTotalZLevels
    ensures !s.mValidObject ==> r == 0
  {
    if s.mValidObject then s.mTotalZLevels else 0
  }

  function GetTotalBottomZLevels(s: CompositeSlide): (r: int32)
    ensures s.mValidObject ==> r == s.mTotalBottomZLevels
    ensures !s.mValidObject ==> r == 0
  {
    if s.mValidObject then s.mTotalBottomZLevels else 0
  }

  function GetTotalTopZLevels(s: CompositeSlide): (r: int32)
    ensures s.mValidObject ==> r == s.mTotalTopZLevels
    ensures !s.mValidObject ==> r == 0
  {
    if s.mValidObject then s.mTotalTopZLevels else 0
  }

  function GetMagnification(s: CompositeSlide): (r: int32)
    ensures s.mValidObject ==> r == s.mmagnification
    ensures !s.mValidObject ==> r == 0
  {
    if s.mValidObject then s.mmagnification else 0
  }

  function GetBaseWidth(s: CompositeSlide): (r: int64)
    ensures s.mValidObject ==> r == s.mbaseWidth
    ensures !s.mValidObject ==> r == 0
  {
    if s.mValidObject then s.mbaseWidth else 0
  }

  function GetBaseHeight(s: CompositeSlide): (r: int64)
    ensures s.mValidObject ==> r == s.mbaseHeight
    ensures !s.mValidObject ==> r == 0
  {
    if s.mValidObject then s.mbaseHeight else 0
  }

  // ---------------------------------------------------------------------
  // Per-level accessors: the level's stored value when the slide is valid,
  // the level index is in range and the level was found; else 0.

  function GetQuality(s: CompositeSlide, level: uint64): (r: int32)
    ensures s.mValidObject && (level as int) < |s.mConf| && s.mConf[level as int].mFound
            ==> r == s.mConf[level as int].mQuality
    ensures !s.mValidObject || (level as int) >= |s.mConf| || !s.mConf[level as int].mFound
            ==> r == 0
  {
    if LevelAvailable(s, level) then s.mConf[level as int].mQuality else 0
  }

  function GetPixelWidth(s: CompositeSlide, level: uint64): (r: int64)
    ensures s.mValidObject && (level as int) < |s.mConf| && s.mConf[level as int].mFound
            ==> r == s.mConf[level as int].mPixelWidth
    ensures !s.mValidObject || (level as int) >= |s.mConf| || !s.mConf[level as int].mFound
            ==> r == 0
  {
    if LevelAvailable(s, level) then s.mConf[level as int].mPixelWidth else 0
  }

  function GetPixelHeight(s: CompositeSlide, level: uint64): (r: int64)
    ensures s.mValidObject && (level as int) < |s.mConf| && s.mConf[level as int].mFound
            ==> r == s.mConf[level as int].mPixelHeight
    ensures !s.mValidObject || (level as int) >= |s.mConf| || !s.mConf[level as int].mFound
            ==> r == 0
  {
    if LevelAvailable(s, level) then s.mConf[level as int].mPixelHeight else 0
  }

  /** The level's composed canvas width. */
  function GetActualWidth(s: CompositeSlide, level: uint64): (r: int64)
    ensures s.mValidObject && (level as int) < |s.mConf| && s.mConf[level as int].mFound
            ==> r == s.mConf[level as int].mTotalWidth
    ensures !s.mValidObject || (level as int) >= |s.mConf| || !s.mConf[level as int].mFound
            ==> r == 0
  {
    if LevelAvailable(s, level) then s.mConf[level as int].mTotalWidth else 0
  }

  /** The level's composed canvas height. */
  function GetActualHeight(s: CompositeSlide, level: uint64): (r: int64)
    ensures s.mValidObject && (level as int) < |s.mConf| && s.mConf[level as int].mFound
            ==> r == s.mConf[level as int].mTotalHeight
    ensures !s.mValidObject || (level as int) >= |s.mConf| || !s.mConf[level as int].mFound
            ==> r == 0
  {
    if LevelAvailable(s, level) then s.mConf[level as int].mTotalHeight else 0
  }

  function GetTotalTiles(s: CompositeSlide, level: uint64): (r: int64)
    ensures s.mValidObject && (level as int) < |s.mConf| && s.mConf[level as int].mFound
            ==> r == s.mConf[level as int].mTotalTiles
    ensures !s.mValidObject || (level as int) >= |s.mConf| || !s.mConf[level as int].mFound
            ==> r == 0
  {
    if LevelAvailable(s, level) then s.mConf[level as int].mTotalTiles else 0
  }

  /** The level's tile array, or `None` where the header returns a null pointer. */
  function GetTileXYArray(s: CompositeSlide, level: uint64): (r: Option<seq<JpgFileXY>>)
    ensures r.None? <==> !s.mValidObject || (level as int) >= |s.mConf| || !s.mConf[level as int].mFound
    ensures r.Some? ==> r.value == s.mConf[level as int].mxyArr
  {
    if LevelAvailable(s, level) then Some(s.mConf[level as int].mxyArr) else None
  }

  // ---------------------------------------------------------------------
  // Properties of the accessor layer as a whole.

  /** A slide that did not open answers 0 or no tile array to every accessor, at every level. */
  lemma InvalidSlideIsNeutral(s: CompositeSlide, level: uint64)
    requires !s.mValidObject
    ensures GetTotalZLevels(s) == 0 && GetTotalBottomZLevels(s) == 0 && GetTotalTopZLevels(s) == 0
    ensures GetMagnification(s) == 0 && GetBaseWidth(s) == 0 && GetBaseHeight(s) == 0
    ensures GetQuality(s, level) == 0 && GetTotalTiles(s, level) == 0
    ensures GetPixelWidth(s, level) == 0 && GetPixelHeight(s, level) == 0
    ensures GetActualWidth(s, level) == 0 && GetActualHeight(s, level) == 0
    ensures GetTileXYArray(s, level) == None
  {
  }

  /**
    A level that is out of range or was not found answers 0 or no tile array
    to every per-level accessor, even on a valid slide.
  */
  lemma MissingLevelIsNeutral(s: CompositeSlide, level: uint64)
    requires (level as int) >= |s.mConf| || !s.mConf[level as int].mFound
    ensures GetQuality(s, level) == 0 && GetTotalTiles(s, level) == 0
    ensures GetPixelWidth(s, level) == 0 && GetPixelHeight(s, level) == 0
    ensures GetActualWidth(s, level) == 0 && GetActualHeight(s, level) == 0
    ensures GetTileXYArray(s, level) == None
  {
  }

  /**
    The per-level accessors share one guard with the tile array accessor:
    whenever any of them reports a non-zero value, the tile array of that
    same level record is available.
  */
  lemma NonZeroMeansTilesAvailable(s: CompositeSlide, level: uint64)
    requires GetQuality(s, level) != 0 || GetTotalTiles(s, level) != 0
          || GetPixelWidth(s, level) != 0 || GetPixelHeight(s, level) != 0
          || GetActualWidth(s, level) != 0 || GetActualHeight(s, level) != 0
    ensures GetTileXYArray(s, level) == Some(s.mConf[level as int].mxyArr)
  {
  }

  /**
    When the tile array is available every per-level accessor reads the same
    level record it comes from.
  */
  lemma AvailableLevelIsStored(s: CompositeSlide, level: uint64)
    requires GetTileXYArray(s, level).Some?
    ensures GetQuality(s, level) == s.mConf[level as int].mQuality
    ensures GetTotalTiles(s, level) == s.mConf[level as int].mTotalTiles
    ensures GetPixelWidth(s, level) == s.mConf[level as int].mPixelWidth
    ensures GetPixelHeight(s, level) == s.mConf[level as int].mPixelHeight
    ensures GetActualWidth(s, level) == s.mConf[level as int].mTotalWidth
    ensures GetActualHeight(s, level) == s.mConf[level as int].mTotalHeight
  {
  }

  /**
    The accessors at one level read that level's record only: replacing the
    record of any other level changes none of their answers, and the
    slide-wide accessors read no level record at all.
  */
  lemma AccessorsReadOnlyTheirLevel(s: CompositeSlide, other: int, c: IniConf, level: uint64)
    requires 0 <= other < |s.mConf| && other != level as int
    ensures var s' := s.(mConf := s.mConf[other := c]);
      && GetQuality(s', level) == GetQuality(s, level)
      && GetTotalTiles(s', level) == GetTotalTiles(s, level)
      && GetPixelWidth(s', level) == GetPixelWidth(s, level)
      && GetPixelHeight(s', level) == GetPixelHeight(s, level)
      && GetActualWidth(s', level) == GetActualWidth(s, level)
      && GetActualHeight(s', level) == GetActualHeight(s, level)
      && GetTileXYArray(s', level) == GetTileXYArray(s, level)
    ensures var s' := s.(mConf := s.mConf[other := c]);
      && GetTotalZLevels(s') == GetTotalZLevels(s)
      && GetTotalBottomZLevels(s') == GetTotalBottomZLevels(s)
      && GetTotalTopZLevels(s') == GetTotalTopZLevels(s)
      && GetMagnification(s') == GetMagnification(s)
      && GetBaseWidth(s') == GetBaseWidth(s)
      && GetBaseHeight(s') == GetBaseHeight(s)
  {
  }
}
