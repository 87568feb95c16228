/**
 * The desktop icon view: a list view over the sort proxy that saves item
 * positions by file path, restores them in two passes, snaps dropped items to
 * its internal grid, and derives that grid from the delegate's metrics.
 *
 * The view's item geometry is state of the class: `rects[p]` is the
 * rectangle of proxy row p, and `toSource`/`fromSource` are the proxy's
 * mapping tables between proxy rows and aggregator rows.
 */
module View {
  import opened Qt
  import opened Positions
  import opened Layout
  import opened Snap
  import opened Delegate
  import MultiDir
  import Sorting

  /** The internal grid a new view starts with. */
  const DefaultGridSize: Size := Size(128, 96)

  /** The icon size used when no size is stored in the settings. */
  const DefaultIconSize: int := 48

  /** Proxy row p occurs as a valid index among the selected indexes. */
  predicate Selected(selected: seq<MultiDir.ModelIndex>, p: int) {
    exists k :: 0 <= k < |selected| && selected[k] == MultiDir.Index(p)
  }

  /**
   * The per-item step of dropEvent in snap mode, over the selected indexes in
   * order: each valid index's item moves to its snapped position.
   */
  function SnapAll(rects: seq<Rect>, selected: seq<MultiDir.ModelIndex>, g: Size): (r: seq<Rect>)
    ensures |r| == |rects|
  {
    if |selected| == 0 then rects
    else
      var prev := SnapAll(rects, selected[..|selected| - 1], g);
      var index := selected[|selected| - 1];
      if index.Index? && 0 <= index.row < |prev| then SetTopLeft(prev, index.row, SnapPoint(prev[index.row].topLeft, g))
      else prev
  }

  /**
   * After a snapping drop, every selected item sits at the snapped position
   * of where it was (once, however often it is selected), keeps its size, and
   * every other item stays where it was.
   */
  lemma {:induction false} SnapAllAt(rects: seq<Rect>, selected: seq<MultiDir.ModelIndex>, g: Size, p: int)
    requires g.w >= 0 && g.h >= 0 && 0 <= p < |rects|
    ensures SnapAll(rects, selected, g)[p] ==
      if Selected(selected, p) then Rect(SnapPoint(rects[p].topLeft, g), rects[p].size) else rects[p]
  {
    if |selected| > 0 {
      var init := selected[..|selected| - 1];
      var index := selected[|selected| - 1];
      SnapAllAt(rects, init, g, p);
      SnapPointIdempotent(rects[p].topLeft, g);
      if Selected(init, p) {
        var k :| 0 <= k < |init| && init[k] == MultiDir.Index(p);
        assert selected[k] == MultiDir.Index(p);
      }
      if Selected(selected, p) && index != MultiDir.Index(p) {
        var k :| 0 <= k < |selected| && selected[k] == MultiDir.Index(p);
        assert init[k] == MultiDir.Index(p);
      }
      if index == MultiDir.Index(p) {
        assert Selected(selected, p);
      }
    }
  }

  /**
   * With a positive grid, a dropped selected item ends on a grid line on both
   * axes, at most half a cell from where it was on a non-negative axis.
   */
  lemma DropLandsOnGrid(rects: seq<Rect>, selected: seq<MultiDir.ModelIndex>, g: Size, p: int)
    requires g.w > 0 && g.h > 0 && 0 <= p < |rects| && Selected(selected, p)
    ensures var q, pos := SnapAll(rects, selected, g)[p].topLeft, rects[p].topLeft;
      && q.x % g.w == 0 && q.y % g.h == 0
      && (pos.x >= 0 ==> 2 * Dist(q.x, pos.x) <= g.w)
      && (pos.y >= 0 ==> 2 * Dist(q.y, pos.y) <= g.h)
  {
    SnapAllAt(rects, selected, g, p);
    var pos := rects[p].topLeft;
    if pos.x >= 0 { SnapAxisNearest(pos.x, g.w); } else { SnapAxisNegative(pos.x, g.w); }
    if pos.y >= 0 { SnapAxisNearest(pos.y, g.h); } else { SnapAxisNegative(pos.y, g.h); }
  }

  /** A grid computed from non-negative metrics is positive on both axes, as the restore probe needs. */
  lemma ShownGridPositive(iconSize: Size, topMargin: int, textLineCount: int, bottomMargin: int, sideMargin: int, fontHeight: int)
    requires iconSize.w >= 0 && iconSize.h >= 0 && topMargin >= 0 && textLineCount >= 0
    requires bottomMargin >= 0 && sideMargin >= 0 && fontHeight >= 0
    ensures var g := GridFor(iconSize, topMargin, textLineCount, bottomMargin, sideMargin, fontHeight);
      g.w >= 2 && g.h >= 2
  {
    MulMonotone(0, textLineCount, fontHeight);
  }

  class IconView {
    var movement: Movement
    var viewMode: ViewMode
    var iconSize: Size
    var gridSize: Size
    var rects: seq<Rect>
    var toSource: seq<int>
    var fromSource: seq<int>
    /** The "snap" entry of the settings store. */
    var snapSetting: Option<bool>
    const delegate: ItemDelegate

    /**
     * A new view: snap movement unless the stored "snap" setting is false,
     * icon mode unless "iconMode" is false, square icons of the stored size
     * (48 by default), the 128 x 96 grid, and a default delegate.
     */
    constructor (snap: Option<bool>, iconMode: Option<bool>, size: Option<int>)
      ensures movement == (if snap.None? || snap.value then Snap else Free)
      ensures viewMode == (if iconMode.None? || iconMode.value then IconMode else ListMode)
      ensures iconSize == (if size.Some? then Size(size.value, size.value) else Size(DefaultIconSize, DefaultIconSize))
      ensures gridSize == DefaultGridSize
      ensures snapSetting == snap
      ensures rects == [] && toSource == [] && fromSource == []
      ensures fresh(delegate) && delegate.textLineCount == DefaultTextLineCount && delegate.cache == map[]
    {
      movement := if snap.None? || snap.value then Snap else Free;
      viewMode := if iconMode.None? || iconMode.value then IconMode else ListMode;
      var s := if size.Some? then size.value else DefaultIconSize;
      iconSize := Size(s, s);
      gridSize := DefaultGridSize;
      snapSetting := snap;
      rects, toSource, fromSource := [], [], [];
      delegate := new ItemDelegate();
    }

    /**
     * The view shows exactly the aggregator's rows, whose paths are `paths`,
     * through the proxy's mapping.
     */
    ghost predicate Shows(agg: MultiDir.MultiDirModel, paths: seq<string>)
      reads this, agg
    {
      agg.Valid() && paths == agg.Paths() && Geometry(rects, paths, toSource, fromSource)
    }

    function InternalGridSize(): Size
      reads this
    {
      gridSize
    }

    /** setInternalGridSize: replaces the grid and nothing else. */
    method SetInternalGridSize(size: Size)
      modifies this`gridSize
      ensures InternalGridSize() == size
    {
      gridSize := size;
    }

    /**
     * getFilePath: the path of the aggregator row behind a proxy row; "" for
     * an invalid index.
     */
    function GetFilePath(agg: MultiDir.MultiDirModel, index: MultiDir.ModelIndex): (path: string)
      reads this, agg
      requires agg.Valid()
      ensures !(index.Index? && 0 <= index.row < |toSource|) ==> path == ""
      ensures index.Index? && 0 <= index.row < |toSource| ==> path == agg.FilePath(MultiDir.Index(toSource[index.row]))
    {
      if index.Index? && 0 <= index.row < |toSource| then agg.FilePath(MultiDir.Index(toSource[index.row])) else ""
    }

    /** The record a save writes for proxy row p carries that row's getFilePath and its top-left corner. */
    lemma SavedKeys(agg: MultiDir.MultiDirModel, paths: seq<string>, p: int)
      requires Shows(agg, paths) && 0 <= p < |rects|
      ensures var rs := SavedRecords(rects, paths, toSource, fromSource);
        rs[p].key == GetFilePath(agg, MultiDir.Index(p)) && rs[p].pos == rects[p].topLeft
    {
    }

    /**
     * savePositions: nothing in static or list mode; otherwise, when the file
     * can be opened for writing, it is rewritten with one record per proxy
     * row in proxy order.
     */
    method SavePositions(agg: MultiDir.MultiDirModel, ghost paths: seq<string>, file: PositionFile, writable: bool)
      requires Shows(agg, paths)
      modifies file
      ensures file.records ==
        if movement == Static || viewMode == ListMode || !writable then old(file.records)
        else SavedRecords(rects, paths, toSource, fromSource)
    {
      if movement == Static || viewMode == ListMode {
        return;
      }
      if writable {
        ghost var saved := SavedRecords(rects, paths, toSource, fromSource);
        var records: seq<Record> := [];
        var y := 0;
        while y < agg.RowCount()
          invariant 0 <= y <= |rects|
          invariant records == saved[..y]
        {
          var index := toSource[y];
          var position := rects[y].topLeft;
          records := records + [Record(agg.FilePath(MultiDir.Index(index)), position)];
          assert saved[..y + 1] == saved[..y] + [saved[y]];
          y := y + 1;
        }
        assert saved[..y] == saved;
        file.records := records;
      }
    }

    /**
     * restorePositions: nothing in static or list mode; otherwise the stored
     * positions are read, pass 1 moves every stored item to its point, and
     * pass 2 moves each item whose position shows another file to the first
     * free on-screen cell.
     */
    method RestorePositions(agg: MultiDir.MultiDirModel, ghost paths: seq<string>, file: PositionFile, readable: bool, screen: Size)
      requires Shows(agg, paths)
      requires gridSize.w > 0 && gridSize.h > 0
      modifies this`rects
      ensures rects ==
        if movement == Static || viewMode == ListMode then old(rects)
        else Restore(old(rects), paths, toSource, fromSource,
                     if readable then LastWins(file.records) else map[], gridSize, screen)
    {
      if movement == Static || viewMode == ListMode {
        return;
      }
      var positions := ReadPositions(file, readable);
      FirstPass(agg, paths, positions);
      SecondPass(agg, paths, positions, screen);
    }

    /** The first pass of restorePositions: every aggregator row whose path is stored moves its item there. */
    method FirstPass(agg: MultiDir.MultiDirModel, ghost paths: seq<string>, positions: map<string, Point>)
      requires Shows(agg, paths)
      modifies this`rects
      ensures rects == Pass1(old(rects), paths, toSource, fromSource, positions, |old(rects)|)
    {
      ghost var start, ts := rects, toSource;
      var fs := fromSource;
      var r := rects;
      var y := 0;
      while y < agg.RowCount()
        invariant agg.Valid() && paths == agg.Paths() && Geometry(start, paths, ts, fs)
        invariant 0 <= y <= |start| && |r| == |start|
        invariant r == Pass1(start, paths, ts, fs, positions, y)
      {
        Pass1Step(start, paths, ts, fs, positions, y, r);
        r := FirstPassRow(agg, paths, fs, r, positions, y);
        y := y + 1;
      }
      rects := r;
    }

    /**
     * The second pass of restorePositions: an aggregator row whose position
     * (stored, or else the origin, the corner of visualRect() of an aggregator
     * index) lies on an item of another path moves its item to the first free
     * cell, if that is on screen.
     */
    method SecondPass(agg: MultiDir.MultiDirModel, ghost paths: seq<string>, positions: map<string, Point>, screen: Size)
      requires Shows(agg, paths)
      requires gridSize.w > 0 && gridSize.h > 0
      modifies this`rects
      ensures |old(rects)| == |rects|
      ensures rects == Pass2(old(rects), paths, toSource, fromSource, positions, gridSize, screen, |old(rects)|)
    {
      ghost var start, ts := rects, toSource;
      var fs, g := fromSource, gridSize;
      var r := rects;
      var y := 0;
      while y < agg.RowCount()
        invariant agg.Valid() && paths == agg.Paths() && Geometry(start, paths, ts, fs)
        invariant 0 <= y <= |start| && |r| == |start|
        invariant r == Pass2(start, paths, ts, fs, positions, g, screen, y)
      {
        Pass2Step(start, paths, ts, fs, positions, g, screen, y, r);
        r := SecondPassRow(agg, paths, fs, r, positions, g, screen, y);
        y := y + 1;
      }
      rects := r;
    }
    /**
     * dropEvent after the base class has moved the items: in snap mode each
     * selected item is moved to the nearer grid line on each axis; in any
     * other mode nothing changes.
     */
    method DropEvent(selected: seq<MultiDir.ModelIndex>)
      modifies this`rects
      ensures rects == if movement == Snap then SnapAll(old(rects), selected, gridSize) else old(rects)
    {
      if movement == Snap {
        var k := 0;
        while k < |selected|
          invariant 0 <= k <= |selected|
          invariant rects == SnapAll(old(rects), selected[..k], gridSize)
        {
          var index := selected[k];
          if index.Index? && 0 <= index.row < |rects| {
            var pos := rects[index.row].topLeft;
            var minPos := Point(Round(pos.x, gridSize.w, true), Round(pos.y, gridSize.h, true));
            var maxPos := Point(minPos.x + gridSize.w, minPos.y + gridSize.h);
            var target := Point(if maxPos.x - pos.x < pos.x - minPos.x then maxPos.x else minPos.x,
                                if maxPos.y - pos.y < pos.y - minPos.y then maxPos.y else minPos.y);
            rects := rects[index.row := Rect(target, rects[index.row].size)];
          }
          assert selected[..k + 1][..k] == selected[..k];
          k := k + 1;
        }
        assert selected[..k] == selected;
      }
    }

    /**
     * showEvent: the grid becomes the icon plus both side margins and two
     * pixels across, and topMargin() plus the icon, textLineCount lines of
     * the font's height, the bottom margin and two pixels down.
     */
    method ShowEvent(fontHeight: int)
      modifies this`gridSize
      ensures gridSize == GridFor(iconSize, delegate.TopMargin(), delegate.TextLineCount(),
                                  delegate.BottomMargin(), delegate.SideMargin(), fontHeight)
    {
      gridSize := Size(iconSize.w + delegate.SideMargin() * 2 + 2,
                       delegate.TopMargin() + iconSize.h + delegate.TextLineCount() * fontHeight + delegate.BottomMargin() + 2);
    }

    /**
     * The "Align icons to grid" action: saves the positions under the current
     * movement, switches to snap or free movement, stores the choice, and when
     * snapping is turned off restores the positions from the file just written.
     */
    method ToggleSnap(checked: bool, agg: MultiDir.MultiDirModel, ghost paths: seq<string>, file: PositionFile,
                      writable: bool, readable: bool, screen: Size)
      requires Shows(agg, paths)
      requires gridSize.w > 0 && gridSize.h > 0
      modifies this`movement, this`snapSetting, this`rects, file
      ensures movement == (if checked then Snap else Free) && snapSetting == Some(checked)
      ensures file.records ==
        if old(movement) == Static || viewMode == ListMode || !writable then old(file.records)
        else SavedRecords(old(rects), paths, toSource, fromSource)
      ensures rects ==
        if checked || viewMode == ListMode then old(rects)
        else Restore(old(rects), paths, toSource, fromSource,
                     if readable then LastWins(file.records) else map[], gridSize, screen)
      ensures !checked && writable && readable && old(movement) != Static && viewMode == IconMode ==>
        rects == Restore(old(rects), paths, toSource, fromSource,
                         LastWins(SavedRecords(old(rects), paths, toSource, fromSource)), gridSize, screen)
    {
      SavePositions(agg, paths, file, writable);
      ghost var written := file.records;
      movement := if checked then Snap else Free;
      snapSetting := Some(checked);
      if !checked {
        RestorePositions(agg, paths, file, readable, screen);
        assert file.records == written;
      }
    }

    /** The sort menu's action: the proxy's mode becomes the chosen one. */
    method SortBy(sortModel: Sorting.SortModel, mode: Sorting.SortMode)
      modifies sortModel
      ensures sortModel.sortMode == mode
    {
      sortModel.SetSortMode(mode);
    }
  }

  /** One row of the first pass over the current geometry: a stored path moves the row's item to its point. */
  method FirstPassRow(agg: MultiDir.MultiDirModel, ghost paths: seq<string>, fromSource: seq<int>, rects: seq<Rect>,
                      positions: map<string, Point>, y: int) returns (r: seq<Rect>)
    requires agg.Valid() && paths == agg.Paths()
    requires |paths| == |rects| == |fromSource| && 0 <= y < |rects| && 0 <= fromSource[y] < |rects|
    ensures r == Place1(rects, paths, fromSource, positions, y)
  {
    r := rects;
    var fileName := agg.FilePath(MultiDir.Index(y));
    assert fileName == paths[y];
    if fileName in positions {
      var p := fromSource[y];
      r := rects[p := Rect(positions[fileName], rects[p].size)];
    }
  }

  /**
   * One row of the second pass over the current geometry: the overlap test
   * against the item under the row's position, then the probe for a free cell.
   */
  method SecondPassRow(agg: MultiDir.MultiDirModel, ghost paths: seq<string>, fromSource: seq<int>, rects: seq<Rect>,
                       positions: map<string, Point>, g: Size, screen: Size, y: int) returns (r: seq<Rect>)
    requires agg.Valid() && paths == agg.Paths()
    requires |paths| == |rects| == |fromSource| && 0 <= y < |rects| && 0 <= fromSource[y] < |rects|
    requires g.w > 0 && g.h > 0
    ensures r == Place2(rects, paths, fromSource, positions, g, screen, y)
  {
    r := rects;
    var fileName := agg.FilePath(MultiDir.Index(y));
    // visualRect() of the aggregator's index: the null rectangle, as Pass2Pos says
    var pos := if fileName in positions then positions[fileName] else Origin;
    assert pos == Pass2Pos(paths, positions, y);
    var under := IndexAt(rects, pos);
    if under.Some? && fileName != agg.FilePath(MultiDir.Index(under.value)) {
      assert Conflict(rects, paths, positions, y);
      var found, cell := ProbeFreeCell(rects, g, screen);
      if found {
        var p := fromSource[y];
        r := rects[p := Rect(cell, rects[p].size)];
      }
    } else {
      assert !Conflict(rects, paths, positions, y);
    }
  }
}
