/**
 * The item delegate's label layout: greedy wrapping of the display text into
 * at most textLineCount lines against an abstract text-width function, the
 * per-text layout cache, and the integer size-hint arithmetic.
 */
module Delegate {
  import opened Qt

  /** The font metrics the layout uses: horizontalAdvance, elidedText (right elision) and height. */
  datatype FontMetrics = FontMetrics(advance: string -> int, elide: (string, int) -> string, height: int)

  /** A laid-out label: its lines, each line's width, and the line height. */
  datatype ListItem = ListItem(lines: seq<string>, lineWidths: seq<int>, textHeight: int)

  const DefaultTextLineCount: int := 3
  const DefaultTopMargin: int := 4
  const DefaultBottomMargin: int := 4
  const DefaultSideMargin: int := 16
  const DefaultTextMargin: int := 4

  /** The first j + 1 characters of the text fit in the available width. */
  predicate FitsAt(text: string, j: int, avail: int, fm: FontMetrics) {
    0 <= j < |text| && fm.advance(text[..j + 1]) <= avail
  }

  /** The first break at or after y: the length of the longest-so-far prefix that fits. */
  function FitFrom(text: string, avail: int, fm: FontMetrics, y: nat): (r: nat)
    requires y <= |text|
    decreases |text| - y
    ensures y <= r <= |text|
    ensures r < |text| ==> !FitsAt(text, r, avail, fm)
    ensures forall j :: y <= j < r ==> FitsAt(text, j, avail, fm)
  {
    if y == |text| || fm.advance(text[..y + 1]) > avail then y
    else FitFrom(text, avail, fm, y + 1)
  }

  /**
   * The inner scan: the number of leading characters taken, i.e. the first y
   * at which adding character y makes the advance exceed the available width
   * (or the whole text when none does).
   */
  function FitLength(text: string, avail: int, fm: FontMetrics): (y: nat)
    ensures y <= |text|
    ensures y < |text| ==> !FitsAt(text, y, avail, fm)
    ensures forall j :: 0 <= j < y ==> FitsAt(text, j, avail, fm)
  {
    FitFrom(text, avail, fm, 0)
  }

  /**
   * The wrapped label with `remaining` lines still allowed: nothing when no
   * line is left or no character fits; the last allowed line is the elided
   * rest; any other line is the fitting prefix, and wrapping goes on after it.
   */
  function WrapLines(text: string, remaining: int, avail: int, fm: FontMetrics): seq<string>
    decreases remaining
  {
    if remaining <= 0 then []
    else
      var y := FitLength(text, avail, fm);
      if y == 0 then []
      else if remaining > 1 then [text[..y]] + WrapLines(text[y..], remaining - 1, avail, fm)
      else [fm.elide(text, avail)]
  }

  /** The lines joined. */
  function Concat(ls: seq<string>): string {
    if |ls| == 0 then "" else ls[0] + Concat(ls[1..])
  }

  /** lineWidths: the advance of each line plus one. */
  function Widths(ls: seq<string>, fm: FontMetrics): (ws: seq<int>)
  {
    seq(|ls|, i requires 0 <= i < |ls| => fm.advance(ls[i]) + 1)
  }

  /**
   * textItemForIndex: in icon mode the wrapped label against the rectangle
   * width less both text margins; in list mode the whole text on one line.
   */
  function LayoutFor(textLineCount: int, textMargin: int, text: string, mode: ViewMode,
                     rectWidth: int, fm: FontMetrics): ListItem
  {
    var ls := if mode == IconMode then WrapLines(text, textLineCount, rectWidth - textMargin * 2, fm) else [text];
    ListItem(ls, Widths(ls, fm), fm.height)
  }

  /** A label never has more lines than are allowed. */
  lemma {:induction false} WrapBound(text: string, n: int, avail: int, fm: FontMetrics)
    ensures |WrapLines(text, n, avail, fm)| <= (if n > 0 then n else 0)
  {
    if n > 1 {
      var y := FitLength(text, avail, fm);
      if y > 0 {
        WrapBound(text[y..], n - 1, avail, fm);
      }
    }
  }

  /** Joining a first line to the rest. */
  lemma ConcatFront(ls: seq<string>, k: nat)
    requires 1 <= k <= |ls|
    ensures Concat(ls[..k]) == ls[0] + Concat(ls[1..][..k - 1])
  {
    assert ls[..k][1..] == ls[1..][..k - 1];
  }

  /** Wrapping with more than one line left and something fitting: the prefix, then the rest. */
  lemma WrapUnfold(text: string, n: int, avail: int, fm: FontMetrics)
    requires n > 1 && FitLength(text, avail, fm) > 0
    ensures var y := FitLength(text, avail, fm);
      WrapLines(text, n, avail, fm) == [text[..y]] + WrapLines(text[y..], n - 1, avail, fm)
  {
  }

  /**
   * The first k lines (k below the allowance) are non-empty and together a
   * prefix of the text, and the remaining lines are the wrapping of the rest
   * of the text with the remaining allowance.
   */
  lemma {:induction false} WrapSuffix(text: string, n: int, avail: int, fm: FontMetrics, k: nat)
    requires k < n && k <= |WrapLines(text, n, avail, fm)|
    ensures var ls := WrapLines(text, n, avail, fm);
      var c := Concat(ls[..k]);
      && |c| <= |text| && c == text[..|c|]
      && (forall i :: 0 <= i < k ==> ls[i] != "")
      && ls[k..] == WrapLines(text[|c|..], n - k, avail, fm)
  {
    var ls := WrapLines(text, n, avail, fm);
    if k == 0 {
      assert ls[..0] == [];
      assert text[0..] == text;
    } else {
      var y := FitLength(text, avail, fm);
      var rest := text[y..];
      var tail := WrapLines(rest, n - 1, avail, fm);
      WrapUnfold(text, n, avail, fm);
      WrapSuffix(rest, n - 1, avail, fm, k - 1);
      var c' := Concat(tail[..k - 1]);
      SuffixJoin(text, y, tail, k);
      var c := Concat(ls[..k]);
      SameWrap(text[|c|..], rest[|c'|..], n - k, avail, fm);
    }
  }

  /** Equal texts wrap alike. */
  lemma SameWrap(a: string, b: string, n: int, avail: int, fm: FontMetrics)
    requires a == b
    ensures WrapLines(a, n, avail, fm) == WrapLines(b, n, avail, fm)
  {
  }

  /**
   * The sequence step behind WrapSuffix: a first line that is a prefix of the
   * text, followed by lines whose first k - 1 join to a prefix of the rest.
   */
  lemma SuffixJoin(text: string, y: nat, tail: seq<string>, k: nat)
    requires 0 < y <= |text| && 1 <= k <= |tail| + 1
    requires |Concat(tail[..k - 1])| <= |text| - y && Concat(tail[..k - 1]) == text[y..][..|Concat(tail[..k - 1])|]
    requires forall i :: 0 <= i < k - 1 ==> tail[i] != ""
    ensures var ls, c' := [text[..y]] + tail, Concat(tail[..k - 1]);
      var c := Concat(ls[..k]);
      && |c| <= |text| && c == text[..|c|]
      && text[|c|..] == text[y..][|c'|..]
      && ls[k..] == tail[k - 1..]
      && (forall i :: 0 <= i < k ==> ls[i] != "")
  {
    var ls := [text[..y]] + tail;
    ConcatFront(ls, k);
    assert ls[1..] == tail;
    PrefixJoin(text, y, Concat(tail[..k - 1]));
    assert |ls[0]| == y;
    forall i | 1 <= i < k
      ensures ls[i] != ""
    {
      assert ls[i] == tail[i - 1];
    }
  }

  /** A prefix of the text followed by a prefix of what is after it is a longer prefix. */
  lemma PrefixJoin(text: string, y: nat, c: string)
    requires y <= |text| && |c| <= |text| - y && c == text[y..][..|c|]
    ensures text[..y] + c == text[..y + |c|]
    ensures text[y..][|c|..] == text[y + |c|..]
  {
  }

  /**
   * A line before the last allowed one is the fitting prefix of the text the
   * earlier lines left, and that prefix is not empty.
   */
  lemma WrapPlainLine(text: string, n: int, avail: int, fm: FontMetrics, i: nat)
    requires i < |WrapLines(text, n, avail, fm)| && i < n - 1
    ensures var ls := WrapLines(text, n, avail, fm);
      var c := Concat(ls[..i]);
      && |c| <= |text|
      && var rest := text[|c|..];
        var y := FitLength(rest, avail, fm);
        y > 0 && ls[i] == rest[..y]
  {
    var ls := WrapLines(text, n, avail, fm);
    WrapSuffix(text, n, avail, fm, i);
    var rest := text[|Concat(ls[..i])|..];
    assert ls[i] == ls[i..][0];
    if FitLength(rest, avail, fm) > 0 {
      WrapUnfold(rest, n - i, avail, fm);
    }
  }

  /** When every allowed line is used, the last one is the elided rest of the text. */
  lemma WrapLastElided(text: string, n: int, avail: int, fm: FontMetrics)
    requires n > 0 && |WrapLines(text, n, avail, fm)| == n
    ensures var ls := WrapLines(text, n, avail, fm);
      var c := Concat(ls[..n - 1]);
      && |c| <= |text|
      && ls[n - 1] == fm.elide(text[|c|..], avail)
  {
    var ls := WrapLines(text, n, avail, fm);
    WrapSuffix(text, n, avail, fm, n - 1);
    assert ls[n - 1] == ls[n - 1..][0];
  }

  /**
   * Wrapping stops early only when not even one character of what is left
   * fits (which includes an exhausted text).
   */
  lemma WrapStopsEarly(text: string, n: int, avail: int, fm: FontMetrics)
    requires |WrapLines(text, n, avail, fm)| < n
    ensures var ls := WrapLines(text, n, avail, fm);
      var c := Concat(ls);
      && |c| <= |text|
      && FitLength(text[|c|..], avail, fm) == 0
  {
    var ls := WrapLines(text, n, avail, fm);
    WrapSuffix(text, n, avail, fm, |ls|);
    assert ls[..|ls|] == ls;
    var rest := text[|Concat(ls)|..];
    assert WrapLines(rest, n - |ls|, avail, fm) == [];
    if FitLength(rest, avail, fm) > 0 && n - |ls| > 1 {
      WrapUnfold(rest, n - |ls|, avail, fm);
    }
  }

  /**
   * A layout has one width per line, each the line's advance plus one, the
   * font's line height, and in icon mode at most textLineCount lines; in list
   * mode it is the whole text on one line.
   */
  lemma LayoutShape(textLineCount: int, textMargin: int, text: string, mode: ViewMode, rectWidth: int, fm: FontMetrics)
    ensures var item := LayoutFor(textLineCount, textMargin, text, mode, rectWidth, fm);
      && |item.lineWidths| == |item.lines|
      && (forall i :: 0 <= i < |item.lines| ==> item.lineWidths[i] == fm.advance(item.lines[i]) + 1)
      && item.textHeight == fm.height
      && (mode == IconMode ==> |item.lines| <= (if textLineCount > 0 then textLineCount else 0))
      && (mode == ListMode ==> item.lines == [text])
  {
    WrapBound(text, textLineCount, rectWidth - textMargin * 2, fm);
  }

  /**
   * sizeHint: width is the decoration width plus both side margins; height is
   * the top margin, the decoration height and the bottom margin, plus in icon
   * mode one text height per line.
   */
  function HintFor(topMargin: int, bottomMargin: int, sideMargin: int, decoration: Size, mode: ViewMode, item: ListItem): Size {
    Size(decoration.w + sideMargin * 2,
         if mode == ListMode then topMargin + decoration.h + bottomMargin
         else topMargin + decoration.h + |item.lines| * item.textHeight + bottomMargin)
  }

  /** The view's grid cell computed when it is shown: room for textLineCount lines plus two pixels each way. */
  function GridFor(iconSize: Size, topMargin: int, textLineCount: int, bottomMargin: int, sideMargin: int, fontHeight: int): Size {
    Size(iconSize.w + sideMargin * 2 + 2,
         topMargin + iconSize.h + textLineCount * fontHeight + bottomMargin + 2)
  }

  lemma {:induction false} MulMonotone(a: int, b: int, h: int)
    requires 0 <= a <= b && h >= 0
    ensures a * h <= b * h
  {
    if a < b {
      MulMonotone(a, b - 1, h);
      assert b * h == (b - 1) * h + h;
    }
  }

  /**
   * A label laid out in icon mode with the view's own fonts and margins fits
   * its grid cell: the cell is the size hint plus two pixels across and at
   * least that much down.
   */
  lemma GridFitsHint(iconSize: Size, textLineCount: int, bottomMargin: int, sideMargin: int, textMargin: int,
                     text: string, fm: FontMetrics)
    requires textLineCount >= 0 && fm.height >= 0
    ensures var rectWidth := iconSize.w + sideMargin * 2;
      var item := LayoutFor(textLineCount, textMargin, text, IconMode, rectWidth, fm);
      var hint := HintFor(textLineCount, bottomMargin, sideMargin, iconSize, IconMode, item);
      var grid := GridFor(iconSize, textLineCount, textLineCount, bottomMargin, sideMargin, fm.height);
      grid.w == hint.w + 2 && hint.h + 2 <= grid.h
  {
    var rectWidth := iconSize.w + sideMargin * 2;
    var item := LayoutFor(textLineCount, textMargin, text, IconMode, rectWidth, fm);
    LayoutShape(textLineCount, textMargin, text, IconMode, rectWidth, fm);
    MulMonotone(|item.lines|, textLineCount, fm.height);
  }

  /**
   * The inner loop of textItemForIndex: grows the candidate line one character
   * at a time until the next character would overflow the available width.
   */
  method ScanFit(text: string, avail: int, fm: FontMetrics) returns (y: nat)
    ensures y == FitLength(text, avail, fm)
  {
    y := 0;
    while y < |text|
      invariant y <= |text|
      invariant forall j :: 0 <= j < y ==> FitsAt(text, j, avail, fm)
    {
      if fm.advance(text[..y + 1]) > avail {
        break;
      }
      y := y + 1;
    }
    assert y < |text| ==> !FitsAt(text, y, avail, fm);
  }

  /** One plain line taken: the lines so far plus the wrapping of the rest are unchanged. */
  lemma WrapStepPlain(done: seq<string>, text: string, r: int, avail: int, fm: FontMetrics, wrapped: seq<string>)
    requires r > 1 && FitLength(text, avail, fm) > 0
    requires done + WrapLines(text, r, avail, fm) == wrapped
    ensures var y := FitLength(text, avail, fm);
      (done + [text[..y]]) + WrapLines(text[y..], r - 1, avail, fm) == wrapped
  {
    WrapUnfold(text, r, avail, fm);
  }

  /** The last allowed line taken, elided: the label is complete. */
  lemma WrapStepLast(done: seq<string>, text: string, avail: int, fm: FontMetrics, wrapped: seq<string>)
    requires FitLength(text, avail, fm) > 0
    requires done + WrapLines(text, 1, avail, fm) == wrapped
    ensures (done + [fm.elide(text, avail)]) + WrapLines(text, 0, avail, fm) == wrapped
  {
  }

  /** Nothing fitting ends the label: the lines so far are all of it. */
  lemma WrapStepStop(done: seq<string>, text: string, r: int, avail: int, fm: FontMetrics, wrapped: seq<string>)
    requires FitLength(text, avail, fm) == 0
    requires done + WrapLines(text, r, avail, fm) == wrapped
    ensures done == wrapped
  {
    assert WrapLines(text, r, avail, fm) == [];
  }

  /** With no line left the label is complete. */
  lemma WrapStepNone(done: seq<string>, text: string, avail: int, fm: FontMetrics, wrapped: seq<string>)
    requires done + WrapLines(text, 0, avail, fm) == wrapped
    ensures done == wrapped
  {
    assert WrapLines(text, 0, avail, fm) == [];
  }

  /**
   * The outer loop of textItemForIndex: fills the line buffer slot by slot,
   * the last slot with the elided rest, and stops at the first slot where no
   * character fits; the filled slots are the wrapped label.
   */
  method FillLines(line: array<string>, text0: string, avail: int, fm: FontMetrics) returns (numLines: nat)
    modifies line
    ensures numLines <= line.Length
    ensures line[..numLines] == WrapLines(text0, line.Length, avail, fm)
  {
    numLines := 0;
    var text := text0;
    ghost var wrapped := WrapLines(text0, line.Length, avail, fm);
    ghost var done: seq<string> := [];
    while line.Length - numLines != 0
      invariant numLines <= line.Length
      invariant line[..numLines] == done
      invariant done + WrapLines(text, line.Length - numLines, avail, fm) == wrapped
      decreases line.Length - numLines
    {
      var y := ScanFit(text, avail, fm);
      if y > 0 {
        if numLines < line.Length - 1 {
          WrapStepPlain(done, text, line.Length - numLines, avail, fm, wrapped);
          line[numLines] := text[..y];
          text := text[y..];
        } else {
          WrapStepLast(done, text, avail, fm, wrapped);
          line[numLines] := fm.elide(text, avail);
        }
      } else {
        WrapStepStop(done, text, line.Length - numLines, avail, fm, wrapped);
        break;
      }
      assert line[..numLines + 1] == line[..numLines] + [line[numLines]];
      done := done + [line[numLines]];
      numLines := numLines + 1;
    }
    if numLines == line.Length {
      WrapStepNone(done, text, avail, fm, wrapped);
    }
  }

  class ItemDelegate {
    var textLineCount: int
    var selectionVisible: bool
    var topMargin: int
    var bottomMargin: int
    var sideMargin: int
    var textMargin: int
    var cache: map<string, ListItem>

    /** The defaults: three lines, margins 4/4/16/4, selection shown, empty cache. */
    constructor ()
      ensures textLineCount == DefaultTextLineCount && selectionVisible
      ensures topMargin == DefaultTopMargin && bottomMargin == DefaultBottomMargin
      ensures sideMargin == DefaultSideMargin && textMargin == DefaultTextMargin
      ensures cache == map[]
    {
      textLineCount := DefaultTextLineCount;
      selectionVisible := true;
      topMargin := DefaultTopMargin;
      bottomMargin := DefaultBottomMargin;
      sideMargin := DefaultSideMargin;
      textMargin := DefaultTextMargin;
      cache := map[];
    }

    function TextLineCount(): int reads this { textLineCount }
    function IsSelectionVisible(): bool reads this { selectionVisible }
    function SideMargin(): int reads this { sideMargin }
    function TextMargin(): int reads this { textMargin }
    function BottomMargin(): int reads this { bottomMargin }

    /** topMargin(): answers the line count, not the stored top margin. */
    function TopMargin(): (m: int)
      reads this
      ensures m == TextLineCount()
    {
      textLineCount
    }

    /** clearCache: empties the layout cache and touches nothing else. */
    method ClearCache()
      modifies this`cache
      ensures cache == map[]
    {
      cache := map[];
    }

    method SetTextLineCount(count: int)
      modifies this`textLineCount
      ensures textLineCount == count
    {
      textLineCount := count;
    }

    method SetSelectionVisible(enable: bool)
      modifies this`selectionVisible
      ensures selectionVisible == enable
    {
      selectionVisible := enable;
    }

    /** setTopMargin stores the field, which topMargin() never reads. */
    method SetTopMargin(margin: int)
      modifies this`topMargin
      ensures topMargin == margin
      ensures TopMargin() == old(TopMargin())
    {
      topMargin := margin;
    }

    method SetBottomMargin(margin: int)
      modifies this`bottomMargin
      ensures bottomMargin == margin
    {
      bottomMargin := margin;
    }

    method SetSideMargin(margin: int)
      modifies this`sideMargin
      ensures sideMargin == margin
    {
      sideMargin := margin;
    }

    method SetTextMargin(margin: int)
      modifies this`textMargin
      ensures textMargin == margin
    {
      textMargin := margin;
    }

    /**
     * textItemForIndex: splits the display text into a line buffer of
     * textLineCount slots (icon mode) or keeps it whole (list mode), then
     * collects the used lines and their widths.
     */
    method TextItemForIndex(text: string, mode: ViewMode, rectWidth: int, fm: FontMetrics) returns (item: ListItem)
      requires textLineCount >= 0
      ensures item == LayoutFor(textLineCount, textMargin, text, mode, rectWidth, fm)
    {
      var lines: seq<string> := [];
      var lineWidths: seq<int> := [];
      if mode == IconMode {
        var line := new string[textLineCount](_ => "");
        var numLines := FillLines(line, text, rectWidth - textMargin * 2, fm);
        var y := 0;
        while y < numLines
          invariant 0 <= y <= numLines
          invariant lines == line[..y]
          invariant lineWidths == Widths(line[..y], fm)
        {
          assert line[..y + 1] == line[..y] + [line[y]];
          lines := lines + [line[y]];
          lineWidths := lineWidths + [fm.advance(line[y]) + 1];
          y := y + 1;
        }
      } else {
        lines := [text];
        lineWidths := [fm.advance(text) + 1];
      }
      item := ListItem(lines, lineWidths, fm.height);
    }

    /**
     * The cache lookup shared by sizeHint and paint: a layout already cached
     * for this display text is reused as is; otherwise it is computed once
     * and stored under the text.
     */
    method CachedLayout(text: string, mode: ViewMode, rectWidth: int, fm: FontMetrics) returns (item: ListItem)
      requires textLineCount >= 0
      modifies this`cache
      ensures text in old(cache) ==> item == old(cache)[text] && cache == old(cache)
      ensures text !in old(cache) ==>
        item == LayoutFor(textLineCount, textMargin, text, mode, rectWidth, fm) && cache == old(cache)[text := item]
    {
      if text in cache {
        item := cache[text];
      } else {
        item := TextItemForIndex(text, mode, rectWidth, fm);
        cache := cache[text := item];
      }
    }

    /**
     * sizeHint: the option rectangle is narrowed to the decoration width plus
     * both side margins, the label layout comes from the cache, and the size
     * follows HintFor (with topMargin() standing for the top margin).
     */
    method SizeHint(decoration: Size, text: string, mode: ViewMode, fm: FontMetrics) returns (size: Size)
      requires textLineCount >= 0
      modifies this`cache
      ensures var width := decoration.w + sideMargin * 2;
        var item := if text in old(cache) then old(cache)[text] else LayoutFor(textLineCount, textMargin, text, mode, width, fm);
        && cache == old(cache)[text := item]
        && size == HintFor(TopMargin(), bottomMargin, sideMargin, decoration, mode, item)
    {
      var width := decoration.w + SideMargin() * 2;
      var item := CachedLayout(text, mode, width, fm);
      size := Size(width,
                   if mode == ListMode then TopMargin() + decoration.h + BottomMargin()
                   else TopMargin() + decoration.h + |item.lines| * item.textHeight + BottomMargin());
    }
  }
}
