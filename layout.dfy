/**
 * The view geometry the position store works against, and the restore
 * algorithm: "the item at a point", the row-major probe for a free grid
 * cell, the records a save writes, and the two restore passes.
 *
 * The view is abstract state: `rects[p]` is the rectangle of proxy row p
 * (the sorted view's rows); `toSource[p]` is the aggregator row that proxy
 * row p shows and `fromSource[y]` the proxy row showing aggregator row y
 * (the proxy's two mapping tables); `paths[y]` is the aggregator's
 * filePath() of row y.
 */
module Layout {
  import opened Qt
  import opened Positions
  import Snap

  /** The proxy's mapping tables are inverse permutations of 0..n-1. */
  predicate Mapping(toSource: seq<int>, fromSource: seq<int>, n: int) {
    && |toSource| == n && |fromSource| == n
    && (forall p :: 0 <= p < n ==> 0 <= toSource[p] < n && fromSource[toSource[p]] == p)
    && (forall y :: 0 <= y < n ==> 0 <= fromSource[y] < n && toSource[fromSource[y]] == y)
  }

  /** A consistent view over the aggregator's rows. */
  predicate Geometry(rects: seq<Rect>, paths: seq<string>, toSource: seq<int>, fromSource: seq<int>) {
    |paths| == |rects| && Mapping(toSource, fromSource, |rects|)
  }

  /** setPositionForIndex: moves one item's rectangle, keeping its size. */
  function SetTopLeft(rects: seq<Rect>, p: int, pt: Point): (r: seq<Rect>)
    requires 0 <= p < |rects|
    ensures |r| == |rects| && r[p] == Rect(pt, rects[p].size)
    ensures forall q :: 0 <= q < |rects| && q != p ==> r[q] == rects[q]
  {
    rects[p := Rect(pt, rects[p].size)]
  }

  /** The first row at or after k whose rectangle contains the point. */
  function IndexAtFrom(rects: seq<Rect>, pt: Point, k: nat): (r: Option<nat>)
    requires k <= |rects|
    decreases |rects| - k
    ensures r.Some? ==>
      && k <= r.value < |rects| && Contains(rects[r.value], pt)
      && forall j :: k <= j < r.value ==> !Contains(rects[j], pt)
    ensures r.None? ==> forall j :: k <= j < |rects| ==> !Contains(rects[j], pt)
  {
    if k == |rects| then None
    else if Contains(rects[k], pt) then Some(k)
    else IndexAtFrom(rects, pt, k + 1)
  }

  /**
   * indexAt: the item under a point, taken as the lowest proxy row whose
   * rectangle contains it; none when no rectangle does.
   */
  function IndexAt(rects: seq<Rect>, pt: Point): (r: Option<nat>)
    ensures r.Some? ==>
      && r.value < |rects| && Contains(rects[r.value], pt)
      && forall j :: 0 <= j < r.value ==> !Contains(rects[j], pt)
    ensures r.None? ==> forall j :: 0 <= j < |rects| ==> !Contains(rects[j], pt)
  {
    IndexAtFrom(rects, pt, 0)
  }

  predicate Occupied(rects: seq<Rect>, pt: Point) {
    IndexAt(rects, pt).Some?
  }

  /** The lowest bottom edge of all items (at least 0): every point at or below it is free. */
  function MaxBottom(rects: seq<Rect>): (b: int)
    ensures b >= 0
    ensures forall k :: 0 <= k < |rects| ==> rects[k].topLeft.y + rects[k].size.h <= b
  {
    if |rects| == 0 then 0
    else
      var rest := MaxBottom(rects[..|rects| - 1]);
      var last := rects[|rects| - 1];
      var b := last.topLeft.y + last.size.h;
      if b > rest then b else rest
  }

  /** The largest x the probe can hold (never negative). */
  function XBound(g: Size, screenWidth: int): int {
    if screenWidth - g.w > 0 then screenWidth - g.w else 0
  }

  /**
   * The probe's step: one grid width to the right, or back to x = 0 one grid
   * height down when x passes the screen width minus one grid width.
   */
  function NextCell(q: Point, g: Size, screenWidth: int): (n: Point)
    ensures n.x == 0 || n.x == q.x + g.w
  {
    var x := q.x + g.w;
    if x > screenWidth - g.w then Point(0, q.y + g.h) else Point(x, q.y)
  }

  /** The cells the probe can visit: grid multiples, x either 0 or at most screen width minus grid width. */
  predicate OnScan(q: Point, g: Size, screenWidth: int)
    requires g.w > 0 && g.h > 0
  {
    && q.x >= 0 && q.y >= 0
    && q.x % g.w == 0 && q.y % g.h == 0
    && (q.x == 0 || q.x <= screenWidth - g.w)
  }

  /** Row-major order of cells. */
  predicate Before(a: Point, b: Point) {
    a.y < b.y || (a.y == b.y && a.x < b.x)
  }

  /** The cell the probe stops at, scanning from q: the first one no item covers. */
  function FreeCell(rects: seq<Rect>, g: Size, screenWidth: int, q: Point): Point
    requires g.w > 0 && g.h > 0
    requires q.x <= XBound(g, screenWidth)
    decreases MaxBottom(rects) - q.y, XBound(g, screenWidth) - q.x
  {
    if !Occupied(rects, q) then q
    else FreeCell(rects, g, screenWidth, NextCell(q, g, screenWidth))
  }

  /** The probe's step does not jump over any cell it could visit. */
  lemma NoCellBetween(q: Point, c: Point, g: Size, screenWidth: int)
    requires g.w > 0 && g.h > 0
    requires OnScan(q, g, screenWidth) && OnScan(c, g, screenWidth) && Before(q, c)
    ensures !Before(c, NextCell(q, g, screenWidth))
  {
    if c.y > q.y {
      Snap.MultiplesApart(q.y, c.y, g.h);
    } else {
      Snap.MultiplesApart(q.x, c.x, g.w);
    }
  }

  /** The probe's step stays on the cells it can visit. */
  lemma NextOnScan(q: Point, g: Size, screenWidth: int)
    requires g.w > 0 && g.h > 0 && OnScan(q, g, screenWidth)
    ensures OnScan(NextCell(q, g, screenWidth), g, screenWidth)
    ensures Before(q, NextCell(q, g, screenWidth))
    ensures NextCell(q, g, screenWidth).x <= XBound(g, screenWidth)
  {
    Snap.NextMultiple(q.x, g.w);
    Snap.NextMultiple(q.y, g.h);
    assert 0 % g.w == 0;
  }

  /**
   * The probe from an on-scan cell q stops at an on-scan cell no item covers,
   * not before q, and every on-scan cell from q up to that one is covered.
   */
  lemma {:induction false} FreeCellFirst(rects: seq<Rect>, g: Size, screenWidth: int, q: Point)
    requires g.w > 0 && g.h > 0
    requires OnScan(q, g, screenWidth) && q.x <= XBound(g, screenWidth)
    decreases MaxBottom(rects) - q.y, XBound(g, screenWidth) - q.x
    ensures var r := FreeCell(rects, g, screenWidth, q);
      && OnScan(r, g, screenWidth)
      && !Occupied(rects, r)
      && !Before(r, q)
      && forall c :: OnScan(c, g, screenWidth) && !Before(c, q) && Before(c, r) ==> Occupied(rects, c)
  {
    if Occupied(rects, q) {
      var n := NextCell(q, g, screenWidth);
      NextOnScan(q, g, screenWidth);
      FreeCellFirst(rects, g, screenWidth, n);
      var r := FreeCell(rects, g, screenWidth, q);
      assert r == FreeCell(rects, g, screenWidth, n);
      forall c | OnScan(c, g, screenWidth) && !Before(c, q) && Before(c, r)
        ensures Occupied(rects, c)
      {
        if c != q {
          NoCellBetween(q, c, g, screenWidth);
        }
      }
    }
  }

  /**
   * The probe started at (0, 0) finds the first cell in row-major order that
   * no item covers: on the grid, and every grid cell before it is covered.
   */
  lemma FirstFreeCell(rects: seq<Rect>, g: Size, screenWidth: int)
    requires g.w > 0 && g.h > 0
    ensures var r := FreeCell(rects, g, screenWidth, Origin);
      && OnScan(r, g, screenWidth)
      && !Occupied(rects, r)
      && forall c :: OnScan(c, g, screenWidth) && Before(c, r) ==> Occupied(rects, c)
  {
    assert 0 % g.w == 0 && 0 % g.h == 0;
    FreeCellFirst(rects, g, screenWidth, Origin);
  }

  /**
   * The probe loop of restore pass 2: from (0, 0), step while an item covers
   * the cell; the cell found is usable unless its y exceeds the screen height.
   */
  method ProbeFreeCell(rects: seq<Rect>, g: Size, screen: Size) returns (found: bool, cell: Point)
    requires g.w > 0 && g.h > 0
    ensures cell == FreeCell(rects, g, screen.w, Origin)
    ensures found <==> cell.y <= screen.h
  {
    var posx, posy := 0, 0;
    while IndexAt(rects, Point(posx, posy)).Some?
      invariant 0 <= posx <= XBound(g, screen.w)
      invariant FreeCell(rects, g, screen.w, Point(posx, posy)) == FreeCell(rects, g, screen.w, Origin)
      decreases MaxBottom(rects) - posy, XBound(g, screen.w) - posx
    {
      posx := posx + g.w;
      if posx > screen.w - g.w {
        posx := 0;
        posy := posy + g.h;
      }
    }
    cell := Point(posx, posy);
    found := !(posy > screen.h);
  }

  /**
   * What savePositions writes: one record per proxy row, in proxy row order,
   * holding the path of the aggregator row it shows and its top-left corner.
   */
  function SavedRecords(rects: seq<Rect>, paths: seq<string>, toSource: seq<int>, fromSource: seq<int>): (rs: seq<Record>)
    requires Geometry(rects, paths, toSource, fromSource)
    ensures |rs| == |rects|
    ensures forall p :: 0 <= p < |rects| ==> rs[p] == Record(paths[toSource[p]], rects[p].topLeft)
  {
    seq(|rects|, p requires 0 <= p < |rects| => Record(paths[toSource[p]], rects[p].topLeft))
  }

  /** Restore pass 1 for aggregator row y: a stored point moves that row's item there. */
  function Place1(rects: seq<Rect>, paths: seq<string>, fromSource: seq<int>, positions: map<string, Point>, y: int): (r: seq<Rect>)
    requires |paths| == |rects| == |fromSource| && 0 <= y < |rects| && 0 <= fromSource[y] < |rects|
  {
    if paths[y] in positions then SetTopLeft(rects, fromSource[y], positions[paths[y]]) else rects
  }

  /** Restore pass 1 over aggregator rows 0..k-1. */
  function Pass1(rects: seq<Rect>, paths: seq<string>, toSource: seq<int>, fromSource: seq<int>,
                 positions: map<string, Point>, k: nat): (r: seq<Rect>)
    requires Geometry(rects, paths, toSource, fromSource) && k <= |rects|
    ensures |r| == |rects|
  {
    if k == 0 then rects
    else Place1(Pass1(rects, paths, toSource, fromSource, positions, k - 1), paths, fromSource, positions, k - 1)
  }

  /** One more row of pass 1 is Place1 of that row on what the earlier rows left. */
  lemma Pass1Step(rects: seq<Rect>, paths: seq<string>, toSource: seq<int>, fromSource: seq<int>,
                  positions: map<string, Point>, k: nat, prev: seq<Rect>)
    requires Geometry(rects, paths, toSource, fromSource) && k < |rects|
    requires prev == Pass1(rects, paths, toSource, fromSource, positions, k)
    ensures Pass1(rects, paths, toSource, fromSource, positions, k + 1)
      == Place1(prev, paths, fromSource, positions, k)
  {
  }

  /**
   * After pass 1 over rows 0..k-1, an item whose aggregator row is among them
   * and whose path is stored sits at the stored point; every other item is
   * where it was. Sizes never change.
   */
  lemma {:induction false} Pass1At(rects: seq<Rect>, paths: seq<string>, toSource: seq<int>, fromSource: seq<int>,
                                   positions: map<string, Point>, k: nat, p: int)
    requires Geometry(rects, paths, toSource, fromSource) && k <= |rects| && 0 <= p < |rects|
    ensures var r, y := Pass1(rects, paths, toSource, fromSource, positions, k), toSource[p];
      r[p] == if y < k && paths[y] in positions then Rect(positions[paths[y]], rects[p].size) else rects[p]
  {
    if k > 0 {
      Pass1At(rects, paths, toSource, fromSource, positions, k - 1, p);
      assert fromSource[k - 1] == p <==> toSource[p] == k - 1;
    }
  }

  /** Pass 1 over every row: stored items at their stored points, all others untouched. */
  lemma Pass1Places(rects: seq<Rect>, paths: seq<string>, toSource: seq<int>, fromSource: seq<int>,
                    positions: map<string, Point>)
    requires Geometry(rects, paths, toSource, fromSource)
    ensures var r := Pass1(rects, paths, toSource, fromSource, positions, |rects|);
      forall p :: 0 <= p < |rects| ==>
        r[p] == if paths[toSource[p]] in positions then Rect(positions[paths[toSource[p]]], rects[p].size) else rects[p]
  {
    forall p | 0 <= p < |rects|
      ensures var r := Pass1(rects, paths, toSource, fromSource, positions, |rects|);
        r[p] == if paths[toSource[p]] in positions then Rect(positions[paths[toSource[p]]], rects[p].size) else rects[p]
    {
      Pass1At(rects, paths, toSource, fromSource, positions, |rects|, p);
    }
  }

  /**
   * The position pass 2 tests for row y: the stored point, or else the
   * top-left of visualRect(source index y). The view is attached to the proxy,
   * so QListView::rectForIndex rejects an index of the aggregator and gives
   * the null rectangle, whose top-left is the origin.
   */
  function Pass2Pos(paths: seq<string>, positions: map<string, Point>, y: int): Point
    requires 0 <= y < |paths|
  {
    if paths[y] in positions then positions[paths[y]] else Origin
  }

  /**
   * Pass 2's overlap test for row y: an item lies under the position and the
   * aggregator's path of that item's proxy row number differs from row y's.
   */
  predicate Conflict(rects: seq<Rect>, paths: seq<string>, positions: map<string, Point>, y: int)
    requires |paths| == |rects| && 0 <= y < |rects|
  {
    var under := IndexAt(rects, Pass2Pos(paths, positions, y));
    under.Some? && paths[y] != paths[under.value]
  }

  /**
   * A row whose path is not stored (a file added since the last save) is
   * tested at the origin: it conflicts exactly when an item of another path
   * covers (0, 0).
   */
  lemma UnstoredTestedAtOrigin(rects: seq<Rect>, paths: seq<string>, positions: map<string, Point>, y: int)
    requires |paths| == |rects| && 0 <= y < |rects| && paths[y] !in positions
    ensures Conflict(rects, paths, positions, y) <==>
      IndexAt(rects, Origin).Some? && paths[y] != paths[IndexAt(rects, Origin).value]
  {
  }

  /** Restore pass 2 for aggregator row y: on a conflict, move to the first free cell if it is on screen. */
  function Place2(rects: seq<Rect>, paths: seq<string>, fromSource: seq<int>, positions: map<string, Point>,
                  g: Size, screen: Size, y: int): (r: seq<Rect>)
    requires |paths| == |rects| == |fromSource| && 0 <= y < |rects| && 0 <= fromSource[y] < |rects|
    requires g.w > 0 && g.h > 0
    ensures |r| == |rects|
  {
    if Conflict(rects, paths, positions, y) then
      var cell := FreeCell(rects, g, screen.w, Origin);
      if cell.y > screen.h then rects else SetTopLeft(rects, fromSource[y], cell)
    else rects
  }

  /**
   * Pass 2 for one row leaves everything alone without a conflict; with one it
   * moves at most that row's item, keeps its size, and moves it only onto the
   * first free grid cell in row-major order, within the screen height.
   */
  lemma Place2Moves(rects: seq<Rect>, paths: seq<string>, fromSource: seq<int>, positions: map<string, Point>,
                    g: Size, screen: Size, y: int)
    requires |paths| == |rects| == |fromSource| && 0 <= y < |rects| && 0 <= fromSource[y] < |rects|
    requires g.w > 0 && g.h > 0
    ensures var r, p := Place2(rects, paths, fromSource, positions, g, screen, y), fromSource[y];
      && (!Conflict(rects, paths, positions, y) ==> r == rects)
      && (forall q :: 0 <= q < |rects| && q != p ==> r[q] == rects[q])
      && r[p].size == rects[p].size
      && (r != rects ==>
            && r[p].topLeft.y <= screen.h
            && OnScan(r[p].topLeft, g, screen.w)
            && !Occupied(rects, r[p].topLeft)
            && forall c :: OnScan(c, g, screen.w) && Before(c, r[p].topLeft) ==> Occupied(rects, c))
  {
    FirstFreeCell(rects, g, screen.w);
  }

  /** Restore pass 2 over aggregator rows 0..k-1; each row sees the moves of the rows before it. */
  function Pass2(rects: seq<Rect>, paths: seq<string>, toSource: seq<int>, fromSource: seq<int>,
                 positions: map<string, Point>, g: Size, screen: Size, k: nat): (r: seq<Rect>)
    requires Geometry(rects, paths, toSource, fromSource) && k <= |rects|
    requires g.w > 0 && g.h > 0
    ensures |r| == |rects|
  {
    if k == 0 then rects
    else Place2(Pass2(rects, paths, toSource, fromSource, positions, g, screen, k - 1),
                paths, fromSource, positions, g, screen, k - 1)
  }

  /** One more row of pass 2 is Place2 of that row on what the earlier rows left. */
  lemma Pass2Step(rects: seq<Rect>, paths: seq<string>, toSource: seq<int>, fromSource: seq<int>,
                  positions: map<string, Point>, g: Size, screen: Size, k: nat, prev: seq<Rect>)
    requires Geometry(rects, paths, toSource, fromSource) && k < |rects|
    requires g.w > 0 && g.h > 0
    requires prev == Pass2(rects, paths, toSource, fromSource, positions, g, screen, k)
    ensures Pass2(rects, paths, toSource, fromSource, positions, g, screen, k + 1)
      == Place2(prev, paths, fromSource, positions, g, screen, k)
  {
  }

  /** Pass 2 only ever moves items, it never resizes them. */
  lemma {:induction false} Pass2KeepsSizes(rects: seq<Rect>, paths: seq<string>, toSource: seq<int>, fromSource: seq<int>,
                                           positions: map<string, Point>, g: Size, screen: Size, k: nat, p: int)
    requires Geometry(rects, paths, toSource, fromSource) && k <= |rects|
    requires g.w > 0 && g.h > 0 && 0 <= p < |rects|
    ensures Pass2(rects, paths, toSource, fromSource, positions, g, screen, k)[p].size == rects[p].size
  {
    if k > 0 {
      var prev := Pass2(rects, paths, toSource, fromSource, positions, g, screen, k - 1);
      Pass2KeepsSizes(rects, paths, toSource, fromSource, positions, g, screen, k - 1, p);
      Place2Moves(prev, paths, fromSource, positions, g, screen, k - 1);
    }
  }

  /** restorePositions after the read loop: pass 1 over every row, then pass 2 over every row. */
  function Restore(rects: seq<Rect>, paths: seq<string>, toSource: seq<int>, fromSource: seq<int>,
                   positions: map<string, Point>, g: Size, screen: Size): (r: seq<Rect>)
    requires Geometry(rects, paths, toSource, fromSource)
    requires g.w > 0 && g.h > 0
    ensures |r| == |rects|
  {
    var after1 := Pass1(rects, paths, toSource, fromSource, positions, |rects|);
    Pass2(after1, paths, toSource, fromSource, positions, g, screen, |rects|)
  }
}

module Restored {
  import opened Qt
  import opened Positions
  import opened Layout

  /** Every path names one item. */
  predicate Distinct(paths: seq<string>) {
    forall i, j :: 0 <= i < j < |paths| ==> paths[i] != paths[j]
  }

  /** Each item's top-left corner lies in its own rectangle and in no other. */
  predicate Separated(rects: seq<Rect>) {
    forall p, q :: 0 <= p < |rects| && 0 <= q < |rects| ==> (Contains(rects[q], rects[p].topLeft) <==> p == q)
  }

  /**
   * Reading back what a save wrote gives every aggregator row's path, mapped
   * to the top-left corner of the item showing that row.
   */
  lemma SavedThenRead(rects: seq<Rect>, paths: seq<string>, toSource: seq<int>, fromSource: seq<int>, y: int)
    requires Geometry(rects, paths, toSource, fromSource) && Distinct(paths) && 0 <= y < |rects|
    ensures var positions := LastWins(SavedRecords(rects, paths, toSource, fromSource));
      paths[y] in positions && positions[paths[y]] == rects[fromSource[y]].topLeft
  {
    var rs := SavedRecords(rects, paths, toSource, fromSource);
    var p := fromSource[y];
    forall j | p < j < |rs|
      ensures rs[j].key != rs[p].key
    {
      assert toSource[j] != y;
    }
    LastWinsValue(rs, p);
  }

  /** Pass 1 over what a save just wrote puts every item back where it is. */
  lemma SaveThenPass1(rects: seq<Rect>, paths: seq<string>, toSource: seq<int>, fromSource: seq<int>)
    requires Geometry(rects, paths, toSource, fromSource) && Distinct(paths)
    ensures Pass1(rects, paths, toSource, fromSource, LastWins(SavedRecords(rects, paths, toSource, fromSource)), |rects|) == rects
  {
    var positions := LastWins(SavedRecords(rects, paths, toSource, fromSource));
    var r := Pass1(rects, paths, toSource, fromSource, positions, |rects|);
    Pass1Places(rects, paths, toSource, fromSource, positions);
    forall p | 0 <= p < |rects|
      ensures r[p] == rects[p]
    {
      SavedThenRead(rects, paths, toSource, fromSource, toSource[p]);
    }
  }

  /**
   * Pass 2 as written: the item found under the position is a PROXY row whose
   * path is then looked up as if it were an aggregator row, and the default
   * position is visualRect() of an aggregator index, which the view does not
   * resolve. The intended pass looks both up through the proxy mapping.
   */
  function Pass2PosIntended(rects: seq<Rect>, paths: seq<string>, fromSource: seq<int>,
                            positions: map<string, Point>, y: int): Point
    requires |paths| == |rects| == |fromSource| && 0 <= y < |rects| && 0 <= fromSource[y] < |rects|
  {
    if paths[y] in positions then positions[paths[y]] else rects[fromSource[y]].topLeft
  }

  predicate ConflictIntended(rects: seq<Rect>, paths: seq<string>, toSource: seq<int>, fromSource: seq<int>,
                             positions: map<string, Point>, y: int)
    requires Geometry(rects, paths, toSource, fromSource) && 0 <= y < |rects|
  {
    var under := IndexAt(rects, Pass2PosIntended(rects, paths, fromSource, positions, y));
    under.Some? && paths[y] != paths[toSource[under.value]]
  }

  function Place2Intended(rects: seq<Rect>, paths: seq<string>, toSource: seq<int>, fromSource: seq<int>,
                          positions: map<string, Point>, g: Size, screen: Size, y: int): (r: seq<Rect>)
    requires Geometry(rects, paths, toSource, fromSource) && 0 <= y < |rects|
    requires g.w > 0 && g.h > 0
    ensures |r| == |rects|
  {
    if ConflictIntended(rects, paths, toSource, fromSource, positions, y) then
      var cell := FreeCell(rects, g, screen.w, Origin);
      if cell.y > screen.h then rects else SetTopLeft(rects, fromSource[y], cell)
    else rects
  }

  function Pass2Intended(rects: seq<Rect>, paths: seq<string>, toSource: seq<int>, fromSource: seq<int>,
                         positions: map<string, Point>, g: Size, screen: Size, k: nat): (r: seq<Rect>)
    requires Geometry(rects, paths, toSource, fromSource) && k <= |rects|
    requires g.w > 0 && g.h > 0
    ensures |r| == |rects|
  {
    if k == 0 then rects
    else
      var prev := Pass2Intended(rects, paths, toSource, fromSource, positions, g, screen, k - 1);
      Place2Intended(prev, paths, toSource, fromSource, positions, g, screen, k - 1)
  }

  function RestoreIntended(rects: seq<Rect>, paths: seq<string>, toSource: seq<int>, fromSource: seq<int>,
                           positions: map<string, Point>, g: Size, screen: Size): (r: seq<Rect>)
    requires Geometry(rects, paths, toSource, fromSource)
    requires g.w > 0 && g.h > 0
    ensures |r| == |rects|
  {
    var after1 := Pass1(rects, paths, toSource, fromSource, positions, |rects|);
    Pass2Intended(after1, paths, toSource, fromSource, positions, g, screen, |rects|)
  }

  /**
   * With the lookups going through the proxy mapping, restoring what a save
   * just wrote moves nothing, whatever the sort order, as long as no item's
   * corner lies inside another item.
   */
  lemma SaveThenRestoreIntended(rects: seq<Rect>, paths: seq<string>, toSource: seq<int>, fromSource: seq<int>,
                                g: Size, screen: Size)
    requires Geometry(rects, paths, toSource, fromSource) && Distinct(paths) && Separated(rects)
    requires g.w > 0 && g.h > 0
    ensures RestoreIntended(rects, paths, toSource, fromSource,
                            LastWins(SavedRecords(rects, paths, toSource, fromSource)), g, screen) == rects
  {
    var positions := LastWins(SavedRecords(rects, paths, toSource, fromSource));
    SaveThenPass1(rects, paths, toSource, fromSource);
    Pass2IntendedStill(rects, paths, toSource, fromSource, positions, g, screen, |rects|);
  }

  lemma {:induction false} Pass2IntendedStill(rects: seq<Rect>, paths: seq<string>, toSource: seq<int>, fromSource: seq<int>,
                                              positions: map<string, Point>, g: Size, screen: Size, k: nat)
    requires Geometry(rects, paths, toSource, fromSource) && Distinct(paths) && Separated(rects)
    requires positions == LastWins(SavedRecords(rects, paths, toSource, fromSource))
    requires g.w > 0 && g.h > 0 && k <= |rects|
    ensures Pass2Intended(rects, paths, toSource, fromSource, positions, g, screen, k) == rects
  {
    if k > 0 {
      Pass2IntendedStill(rects, paths, toSource, fromSource, positions, g, screen, k - 1);
      Place2IntendedStill(rects, paths, toSource, fromSource, positions, g, screen, k - 1);
    }
  }

  /** One row of the intended pass over a just-saved layout: the item under the row's stored point is its own. */
  lemma Place2IntendedStill(rects: seq<Rect>, paths: seq<string>, toSource: seq<int>, fromSource: seq<int>,
                            positions: map<string, Point>, g: Size, screen: Size, y: int)
    requires Geometry(rects, paths, toSource, fromSource) && Distinct(paths) && Separated(rects)
    requires positions == LastWins(SavedRecords(rects, paths, toSource, fromSource))
    requires g.w > 0 && g.h > 0 && 0 <= y < |rects|
    ensures Place2Intended(rects, paths, toSource, fromSource, positions, g, screen, y) == rects
  {
    SavedThenRead(rects, paths, toSource, fromSource, y);
    var p := fromSource[y];
    assert Pass2PosIntended(rects, paths, fromSource, positions, y) == rects[p].topLeft;
    assert Contains(rects[p], rects[p].topLeft);
    assert IndexAt(rects, rects[p].topLeft) == Some(p);
  }

  /**
   * The pass as written does move items after a save when the sort order is
   * not the aggregator's: two icons, the sort showing aggregator row 1 first.
   * Restoring the layout just saved sends both icons to other cells.
   */
  lemma SaveThenRestoreAsWrittenMoves()
    ensures var rects := [Rect(Point(0, 0), Size(10, 10)), Rect(Point(128, 0), Size(10, 10))];
      var paths := ["a", "b"];
      var toSource, fromSource := [1, 0], [1, 0];
      && Geometry(rects, paths, toSource, fromSource) && Distinct(paths) && Separated(rects)
      && Restore(rects, paths, toSource, fromSource,
                 LastWins(SavedRecords(rects, paths, toSource, fromSource)), Size(128, 96), Size(1000, 1000))
         == [Rect(Point(128, 0), Size(10, 10)), Rect(Point(256, 0), Size(10, 10))]
  {
    var rects := [Rect(Point(0, 0), Size(10, 10)), Rect(Point(128, 0), Size(10, 10))];
    var paths := ["a", "b"];
    var toSource, fromSource := [1, 0], [1, 0];
    var g, screen := Size(128, 96), Size(1000, 1000);
    assert Geometry(rects, paths, toSource, fromSource);
    var positions := LastWins(SavedRecords(rects, paths, toSource, fromSource));
    AsWrittenSaved(rects, paths, toSource, fromSource);
    SaveThenPass1(rects, paths, toSource, fromSource);
    var after1 := Pass1(rects, paths, toSource, fromSource, positions, 2);
    assert after1 == rects;
    var mid := [Rect(Point(0, 0), Size(10, 10)), Rect(Point(256, 0), Size(10, 10))];
    AsWrittenRow0(rects, paths, fromSource, positions, g, screen);
    assert Pass2(after1, paths, toSource, fromSource, positions, g, screen, 0) == after1;
    assert Pass2(after1, paths, toSource, fromSource, positions, g, screen, 1) == mid;
    AsWrittenRow1(mid, paths, fromSource, positions, g, screen);
  }

  /** What the example's save writes reads back as "b" at the origin and "a" one cell right. */
  lemma AsWrittenSaved(rects: seq<Rect>, paths: seq<string>, toSource: seq<int>, fromSource: seq<int>)
    requires rects == [Rect(Point(0, 0), Size(10, 10)), Rect(Point(128, 0), Size(10, 10))]
    requires paths == ["a", "b"] && toSource == [1, 0] && fromSource == [1, 0]
    ensures Geometry(rects, paths, toSource, fromSource)
    ensures LastWins(SavedRecords(rects, paths, toSource, fromSource)) == map["b" := Point(0, 0), "a" := Point(128, 0)]
  {
    assert Geometry(rects, paths, toSource, fromSource);
    var rs := SavedRecords(rects, paths, toSource, fromSource);
    assert rs == [Record("b", Point(0, 0)), Record("a", Point(128, 0))];
    assert rs[..1] == [Record("b", Point(0, 0))] && rs[..1][..0] == [];
    assert LastWins(rs[..1]) == map["b" := Point(0, 0)];
  }

  /**
   * Row 0 ("a") of the example: the item under (128, 0) is proxy row 1, whose
   * row number names "b", so the item of "a" moves to the first free cell.
   */
  lemma AsWrittenRow0(rects: seq<Rect>, paths: seq<string>, fromSource: seq<int>,
                      positions: map<string, Point>, g: Size, screen: Size)
    requires rects == [Rect(Point(0, 0), Size(10, 10)), Rect(Point(128, 0), Size(10, 10))]
    requires paths == ["a", "b"] && fromSource == [1, 0]
    requires positions == map["b" := Point(0, 0), "a" := Point(128, 0)]
    requires g == Size(128, 96) && screen == Size(1000, 1000)
    ensures Place2(rects, paths, fromSource, positions, g, screen, 0)
      == [Rect(Point(0, 0), Size(10, 10)), Rect(Point(256, 0), Size(10, 10))]
  {
    assert !Contains(rects[0], Point(128, 0)) && Contains(rects[1], Point(128, 0));
    assert IndexAt(rects, Point(128, 0)) == Some(1);
    assert Conflict(rects, paths, positions, 0);
    assert IndexAt(rects, Point(0, 0)) == Some(0);
    assert IndexAt(rects, Point(256, 0)) == None;
    assert FreeCell(rects, g, screen.w, Point(256, 0)) == Point(256, 0);
    assert FreeCell(rects, g, screen.w, Point(128, 0)) == Point(256, 0);
    assert FreeCell(rects, g, screen.w, Origin) == Point(256, 0);
  }

  /**
   * Row 1 ("b") of the example: the item under (0, 0) is proxy row 0, whose
   * row number names "a", so the item of "b" moves to the first free cell.
   */
  lemma AsWrittenRow1(rects: seq<Rect>, paths: seq<string>, fromSource: seq<int>,
                      positions: map<string, Point>, g: Size, screen: Size)
    requires rects == [Rect(Point(0, 0), Size(10, 10)), Rect(Point(256, 0), Size(10, 10))]
    requires paths == ["a", "b"] && fromSource == [1, 0]
    requires positions == map["b" := Point(0, 0), "a" := Point(128, 0)]
    requires g == Size(128, 96) && screen == Size(1000, 1000)
    ensures Place2(rects, paths, fromSource, positions, g, screen, 1)
      == [Rect(Point(128, 0), Size(10, 10)), Rect(Point(256, 0), Size(10, 10))]
  {
    assert Contains(rects[0], Point(0, 0));
    assert IndexAt(rects, Point(0, 0)) == Some(0);
    assert Conflict(rects, paths, positions, 1);
    assert IndexAt(rects, Point(128, 0)) == None;
    assert FreeCell(rects, g, screen.w, Point(128, 0)) == Point(128, 0);
    assert FreeCell(rects, g, screen.w, Origin) == Point(128, 0);
  }
}
