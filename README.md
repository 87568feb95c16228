# DesktopView icon-grid pipeline in Dafny

This project models the icon-grid pipeline of DesktopView, a desktop replacement for Windows written in C++ with Qt. Several item providers feed it:
- filesystem directories;
- a synthetic model with "This PC", "Trash" and "Documents".

The pipeline is as follows:
- The aggregator (`MultiDirModel`) flattens the providers into one cached list of (provider, row) references.
- A sort proxy (`SortModel`) orders the aggregator's rows by name, type, size or date.
- A list view (`IconView`) shows the proxy in icon mode. It does the following:
  - saves each icon's position keyed by file path;
  - restores positions in two passes, moving an icon that overlaps a different file to the first free grid cell;
  - snaps dropped icons to its internal grid;
  - derives that grid from the item delegate's metrics.
- The delegate (`ItemDelegate`) wraps each label into at most `textLineCount` lines, caches the layout per text, and computes the size hint.

Modules, one per source file:
- `Qt` (`qt.dfy`) holds the Qt value types the files share.
- `DesktopIcons` (`desktopiconmodel.dfy`) has the synthetic item tables and the icon cache.
- `FileSystem` (`filesystemmodel.dfy`) has the ".lnk"-stripping display rule and the icon cache.
- `MultiDir` (`multidirmodel.dfy`) has the aggregator.
- `Sorting` (`sortmodel.dfy`) has the comparators and the proxy's sort mode.
- `Snap` (`snap.dfy`) has the snap arithmetic of `dropEvent`. It is written with C++'s truncating `%`.
- `Positions` (`positions.dfy`) has the position file and its read loop.
- `Layout` (`layout.dfy`) specifies `indexAt`, the free-cell probe, the records a save writes, and the two restore passes, as written.
- `Restored` (`layout.dfy`) holds the corrected pass 2 and the save/restore round trip.
- `Delegate` (`itemdelegate.dfy`) has label wrapping, the layout cache and the size hint.
- `View` (`iconview.dfy`) is the view class. Its methods are loops proved against the `Layout` and `Snap` functions.
  The save and restore methods take the aggregator's list of paths as a ghost argument, which their precondition ties to `agg.Paths()`. Their contracts are stated over that list.

Three behaviours of the code worth noting:
- A drop exactly halfway between two grid lines snaps to the lower line. The comparison is a strict `<` (`iconview.cpp:263-264`).
- A negative coordinate snaps toward zero. The truncating remainder puts the "minimum" line above the position.
- `savePositions` writes one record per proxy row, in proxy order (`iconview.cpp:133-143`), not in aggregator order.

## Model

| member | source | states |
|---|---|---|
| DesktopIcons.FileName | desktopiconmodel.cpp:84-97 | The three rows have the names "This PC", "Trash", "Documents"; only those rows have a non-empty name. |
| DesktopIcons.FilePath | desktopiconmodel.cpp:103-116 | Rows 0 and 1 are the shell CLSID paths (starting "::"); row 2 is the Documents location; any other row gives "". |
| DesktopIcons.Size | desktopiconmodel.cpp:223-236 | The three items have negative sentinel sizes (-100, -80, -90); any other row has size 0. |
| DesktopIcons.MimeTypeName | desktopiconmodel.cpp:122-135 | An item's "mime type" is the decimal spelling of its sentinel size; any other row gives "". |
| DesktopIcons.IconId | desktopiconmodel.cpp:142-156 | A row has a positive shell32 resource id exactly when it is one of the three items; otherwise -1. |
| DesktopIcons.LastModified | desktopiconmodel.h:60 | Synthetic items never carry a valid modification time. |
| DesktopIcons.Flags | desktopiconmodel.h:50 | Every index is selectable, draggable and enabled; it is never editable, a drop target or checkable. |
| DesktopIcons.Data | desktopiconmodel.cpp:70-78 | The display role gives the name, the decoration role the row's icon, and any other role an empty variant. |
| DesktopIcons.PathsDistinct | desktopiconmodel.cpp:103-116 | The three identity keys differ whenever Documents is not a "::" shell path. |
| DesktopIcons.DesktopIconModel.SetScale | desktopiconmodel.cpp:49-54 | The icon cache is emptied and the scale recorded. |
| DesktopIcons.DesktopIconModel.GetIcon | desktopiconmodel.cpp:243-254 | The icon is loaded at the current scale and cached under its id, null or not. |
| DesktopIcons.DesktopIconModel.FileIcon | desktopiconmodel.cpp:141-166 | A cached icon is returned as is. Otherwise an on-disk PNG is returned uncached. Otherwise the icon is loaded and cached. |
| FileSystem.StripLnk | filesystemmodel.cpp:258-268 | The result is the name with exactly one trailing ".lnk" removed, or the name unchanged; it is always a prefix of the name. |
| FileSystem.StripLnkOnce | filesystemmodel.cpp:258-268 | Only one suffix is removed: "x.lnk.lnk" shows as "x.lnk". |
| FileSystem.IconKeyOf | filesystemmodel.cpp:53-54 | The icon-cache key is the absolute path with the symlink target's length for a link, else the file size. |
| FileSystem.Data | filesystemmodel.cpp:258-268 | The display role gives the stripped name, the decoration role the entry's icon, and any other role is left to QFileSystemModel. |
| FileSystem.FileSystemModel.SetScale | filesystemmodel.cpp:283-288 | The icon cache is emptied and the scale recorded. |
| FileSystem.FileSystemModel.GetIcon | filesystemmodel.cpp:231-242 | The icon is extracted at the current scale and cached under the entry's key, even when null. |
| FileSystem.FileSystemModel.FileIcon | filesystemmodel.cpp:52-67 | Cache hit, then on-disk PNG, then extraction with caching; a null extraction falls back to the base model's icon. |
| MultiDir.RowsOf | multidirmodel.cpp:33-37 | The references of provider i's rows are (i, 0), …, (i, n-1), in order. |
| MultiDir.FlattenSize | multidirmodel.cpp:29-40 | The rebuilt cache has one entry per provider row, in total, and every entry references an existing row. |
| MultiDir.FlattenAt | multidirmodel.cpp:29-40 | The entry at offset SumRows(providers before i) + r is (i, r): providers stay in order, with rows in order within each. |
| MultiDir.MultiDirModel.constructor | multidirmodel.h:35 | A new aggregator has no providers, an empty cache and no signals. |
| MultiDir.MultiDirModel.Add | multidirmodel.h:51 | The provider is appended last; the cache is not rebuilt. |
| MultiDir.MultiDirModel.Reset | multidirmodel.cpp:29-40 | The cache becomes exactly Flatten(providers); reset then load signals are emitted. |
| MultiDir.AddThenReset | multidirmodel.cpp:29-40 | After add() and reset(), every existing row keeps its aggregate row number, and the new provider's rows follow in order. |
| MultiDir.MultiDirModel.MapToSource | multidirmodel.cpp:71-76 | A reference is returned exactly for a valid in-range row, and it is that row's cache entry; otherwise none. |
| MultiDir.MultiDirModel.MapToSourceAfterReset | multidirmodel.cpp:29-40 | After a rebuild, resolving row SumRows(models[..i]) + r gives provider i's row r: resolving inverts flattening. |
| MultiDir.MultiDirModel.Owner | multidirmodel.cpp:71-76 | An index resolves exactly when mapToSource does, and then to a row that exists in its provider. |
| MultiDir.MultiDirModel.Data | multidirmodel.cpp:56-64 | The owning provider's data for its row; an empty variant for an unresolved index. |
| MultiDir.MultiDirModel.FileName | multidirmodel.cpp:83-96 | The provider's name for the row; "" when unresolved or from an unknown provider kind. |
| MultiDir.MultiDirModel.FilePath | multidirmodel.cpp:103-116 | The provider's path for the row; "" when unresolved or from an unknown provider kind. |
| MultiDir.MultiDirModel.FileInfo | multidirmodel.cpp:123-133 | File information exists exactly for filesystem rows and is that row's entry. |
| MultiDir.MultiDirModel.Flags | multidirmodel.cpp:140-153 | The provider's flags for a filesystem or desktop row. Any other valid index gets QAbstractListModel's selectable, enabled and never-has-children flags, including a row of an unknown kind and a stale row beyond the cache. An invalid index gets no flags. |
| MultiDir.MultiDirModel.MimeTypeName | multidirmodel.cpp:160-173 | The provider's mime name; "" when unresolved or from an unknown provider kind. |
| MultiDir.MultiDirModel.Size | multidirmodel.cpp:180-193 | The provider's size (negative for synthetic rows); -1 when unresolved or from an unknown provider kind. |
| MultiDir.MultiDirModel.LastModified | multidirmodel.cpp:200-213 | The file's modification time for filesystem rows; an invalid datetime for every other index. |
| MultiDir.MultiDirModel.Paths | multidirmodel.cpp:103-116 | Entry i is filePath() of aggregate row i, for every row. |
| Sorting.ModeValue | sortmodel.h:35-41 | The enumerators take the values -1..3, and -1 is exactly NoMode. |
| Sorting.ModeOf | sortmodel.h:35-41 | An integer names a mode exactly when it is in -1..3, and it names the mode with that value. |
| Sorting.ModeValueRoundTrip | sortmodel.h:35-41 | Reading a mode back from its value gives the mode. |
| Sorting.StringLessIrreflexive | sortmodel.cpp:85-97 | The case-sensitive comparison never puts a string before itself. |
| Sorting.StringLessTransitive | sortmodel.cpp:85-97 | The case-sensitive comparison is transitive. |
| Sorting.StringLessTotal | sortmodel.cpp:85-97 | Of two different strings, one sorts before the other. |
| Sorting.DesktopTypeOrder | desktopiconmodel.cpp:122-135 | By type, the synthetic items sort This PC, Trash, Documents. |
| Sorting.SizeLess | sortmodel.cpp:105-115 | Sorting by size is integer order of the two sizes; with no aggregator, nothing sorts first. |
| Sorting.SizeLessStrict | sortmodel.cpp:105-115 | The size comparator is irreflexive and transitive. |
| Sorting.TypeLessStrict | sortmodel.cpp:85-97 | The type comparator is irreflexive, transitive, and total on different mime names. |
| Sorting.SortModel.constructor | sortmodel.h:53 | A new proxy sorts by name. |
| Sorting.SortModel.SetSortMode | sortmodel.h:47 | The mode is stored. |
| Sorting.SortModel.LessThanIrreflexive | sortmodel.cpp:38-59 | In every mode, no index sorts before itself when the library orders are irreflexive. |
| Sorting.SortModel.LessThanStrict | sortmodel.cpp:38-59 | In size or type mode, lessThan is irreflexive and transitive, whatever the library's compare functions do. |
| Snap.CRem | iconview.cpp:252 | The C++ remainder lies in [0, abs(m)) for non-negative n and in (-abs(m), 0] for negative n. |
| Snap.RoundByZero | iconview.cpp:249-250 | Rounding to a multiple of 0 returns the number unchanged. |
| Snap.RoundExact | iconview.cpp:252-254 | A number with zero remainder is returned unchanged. |
| Snap.RoundDownIsMultiple | iconview.cpp:249-258 | The "down" rounding is g times the truncated quotient, so it is a multiple of g. |
| Snap.RoundDownBelow | iconview.cpp:249-260 | For a non-negative position, the minimum line is the multiple of g at or below it, and the next line is above it. |
| Snap.SnapAxisNearest | iconview.cpp:260-264 | For g > 0 and pos ≥ 0, the result is a grid line: the minimum line or the next one. It is at most half a cell away, a tie goes to the lower line, and no grid line is nearer. |
| Snap.SnapAxisNegative | iconview.cpp:260-264 | For a negative position, the result is the grid line at or above it, less than one cell away: it moves toward zero. |
| Snap.SnapAxisIdempotent | iconview.cpp:260-264 | Snapping an already snapped coordinate changes nothing. |
| Snap.OnLineStays | iconview.cpp:252-254 | A coordinate on a grid line (of either sign) snaps to itself. |
| Snap.SnapPointIdempotent | iconview.cpp:260-264 | Snapping a snapped position changes nothing. |
| Positions.LastWinsDomain | iconview.cpp:162-175 | A path is in the read map exactly when some record of the file carries it. |
| Positions.LastWinsValue | iconview.cpp:162-175 | A path's value in the map is the point of the last record carrying it. |
| Positions.ReadPositions | iconview.cpp:160-175 | The map built is LastWins of the file's records in file order, or empty when the file cannot be opened. |
| Layout.SetTopLeft | iconview.cpp:186 | Moving one item changes only that item's corner and none of the sizes. |
| Layout.IndexAt | iconview.cpp:203 | The item under a point is the lowest row whose rectangle contains it, or none when no rectangle does. |
| Layout.MaxBottom | iconview.cpp:208-220 | No item reaches below this bound, so the probe stops by it. |
| Layout.FreeCellFirst | iconview.cpp:208-220 | From a scan cell, the probe stops at the first uncovered cell at or after it in row-major order. |
| Layout.FirstFreeCell | iconview.cpp:208-220 | From (0, 0), the probe finds a grid cell no item covers, and every scan cell before it is covered. |
| Layout.ProbeFreeCell | iconview.cpp:208-230 | The loop stops at FreeCell from (0, 0); the cell is used exactly when its y does not exceed the screen height. |
| Layout.SavedRecords | iconview.cpp:133-143 | A save writes one record per proxy row, in proxy order: the path of the aggregator row shown and the row's top-left corner. What reading such a save back gives is proved in Restored.SavedThenRead. |
| Layout.Pass1At | iconview.cpp:178-187 | After rows 0..k-1, an item whose aggregator row is among them and whose path is stored sits at the stored point; any other item is unchanged. |
| Layout.Pass1Places | iconview.cpp:178-187 | After the whole first pass, every stored item is at its stored point, every other item is untouched, and no size changes. |
| Layout.UnstoredTestedAtOrigin | iconview.cpp:201-204 | A row whose path is not stored is tested at (0, 0). It conflicts exactly when an item of another path covers the origin. |
| Layout.Place2Moves | iconview.cpp:193-232 | Without a conflict nothing moves. With one, only the row's item moves, keeping its size, and only onto the first free on-screen cell. |
| Layout.Pass2KeepsSizes | iconview.cpp:193-232 | The second pass never resizes an item. |
| Layout.Restore | iconview.cpp:152-232 | Both passes, as written, applied to the view's items; the number of items is unchanged. |
| Restored.SavedThenRead | iconview.cpp:120-175 | Reading back a fresh save maps every aggregator row's path to the corner of the item showing that row. |
| Restored.SaveThenPass1 | iconview.cpp:120-187 | Pass 1 over a fresh save leaves every item where it is. |
| Restored.SaveThenRestoreIntended | iconview.cpp:152-232 | When paths are distinct and no corner lies inside another item, the corrected restore of a fresh save moves nothing, whatever the sort order. |
| Restored.Pass2IntendedStill | iconview.cpp:193-232 | With the intended lookups, pass 2 over a fresh save finds no conflict for any row. |
| Restored.SaveThenRestoreAsWrittenMoves | iconview.cpp:201-204 | With two icons and the sort showing row 1 first, the restore as written moves both icons after a fresh save. |
| Delegate.FitLength | itemdelegate.cpp:97-100 | The inner scan stops at the first y where adding character y overflows; every shorter prefix fits. |
| Delegate.WrapBound | itemdelegate.cpp:96-112 | A label never has more lines than textLineCount. |
| Delegate.WrapSuffix | itemdelegate.cpp:96-112 | The first k lines are non-empty and together a prefix of the text; the remaining lines wrap the rest with the remaining allowance. |
| Delegate.WrapPlainLine | itemdelegate.cpp:102-105 | Every line before the last allowed one is the longest fitting, non-empty prefix of what the earlier lines left. |
| Delegate.WrapLastElided | itemdelegate.cpp:106-107 | When every allowed line is used, the last one is the elided rest of the text. |
| Delegate.WrapStopsEarly | itemdelegate.cpp:108-109 | A label stops short of textLineCount lines only when not even one more character fits. |
| Delegate.LayoutShape | itemdelegate.cpp:80-126 | A layout has one width per line and the font's line height; at most textLineCount lines in icon mode, and the whole text on one line in list mode. |
| Delegate.GridFitsHint | iconview.cpp:274-281 | The grid cell shown is the icon-mode size hint plus 2 pixels across and at least that much down. |
| Delegate.ScanFit | itemdelegate.cpp:97-100 | The scan loop computes FitLength. |
| Delegate.FillLines | itemdelegate.cpp:96-112 | The filled line slots are exactly the wrapped label, and no more than the buffer holds. |
| Delegate.ItemDelegate.constructor | itemdelegate.h:71-76 | The defaults: 3 lines, top 4, bottom 4, side 16, text margin 4, selection visible, empty cache. |
| Delegate.ItemDelegate.TopMargin | itemdelegate.h:50 | topMargin() answers the line count, not the stored top margin. |
| Delegate.ItemDelegate.ClearCache | itemdelegate.h:56 | The layout cache becomes empty and nothing else changes. |
| Delegate.ItemDelegate.SetTextLineCount | itemdelegate.h:57 | Only the line count changes. |
| Delegate.ItemDelegate.SetSelectionVisible | itemdelegate.h:58 | Only the selection flag changes. |
| Delegate.ItemDelegate.SetTopMargin | itemdelegate.h:59 | Only the stored top margin changes, and topMargin() is unaffected by it. |
| Delegate.ItemDelegate.SetBottomMargin | itemdelegate.h:60 | Only the bottom margin changes. |
| Delegate.ItemDelegate.SetSideMargin | itemdelegate.h:61 | Only the side margin changes. |
| Delegate.ItemDelegate.SetTextMargin | itemdelegate.h:62 | Only the text margin changes. |
| Delegate.ItemDelegate.TextItemForIndex | itemdelegate.cpp:80-126 | The result is LayoutFor: the wrapped label against the width less both text margins in icon mode, the whole text in list mode. |
| Delegate.ItemDelegate.CachedLayout | itemdelegate.cpp:60-65 | A cached layout for the text is reused unchanged; otherwise one is computed, stored under the text, and returned. |
| Delegate.ItemDelegate.SizeHint | itemdelegate.cpp:43-72 | The cache is updated as CachedLayout does. Width is the decoration plus both side margins. Height is topMargin() plus decoration plus bottom margin, plus one text height per line in icon mode. |
| View.SnapAllAt | iconview.cpp:239-268 | After a snapping drop, each selected item sits at the snap of its position once, however often it is selected, and keeps its size; other items stay put. |
| View.DropLandsOnGrid | iconview.cpp:249-264 | With a positive grid, a dropped selected item ends on grid lines on both axes, at most half a cell away on a non-negative axis. |
| View.ShownGridPositive | iconview.cpp:274-281 | A grid derived from non-negative metrics is at least 2 × 2, so it satisfies the restore precondition. |
| View.IconView.constructor | iconview.cpp:53-89 | Snap movement unless the "snap" setting is false; icon mode unless "iconMode" is false; square icons of the stored size (48 by default); the 128 × 96 grid. |
| View.IconView.SetInternalGridSize | iconview.h:45 | Only the grid changes (the getter at line 37 returns it). |
| View.IconView.GetFilePath | iconview.cpp:96-115 | The path of the aggregator row behind a proxy row; "" for an invalid index. |
| View.IconView.SavedKeys | iconview.cpp:133-143 | The record saved for proxy row p holds getFilePath(p) and the row's corner. |
| View.IconView.SavePositions | iconview.cpp:120-147 | Static or list mode writes nothing, as does a file that cannot be opened. Otherwise the file becomes SavedRecords. |
| View.IconView.RestorePositions | iconview.cpp:152-233 | Static or list mode changes nothing. Otherwise the items become Restore over the positions read from the file. |
| View.IconView.FirstPass | iconview.cpp:178-187 | The loop computes Pass1 over every aggregator row. |
| View.IconView.SecondPass | iconview.cpp:193-232 | The loop computes Pass2 over every aggregator row. |
| View.FirstPassRow | iconview.cpp:182-186 | One row's lookup of its path among the stored positions computes Place1 for that row. |
| View.SecondPassRow | iconview.cpp:196-231 | One row's overlap test and probe compute Place2 for that row. |
| View.IconView.DropEvent | iconview.cpp:239-268 | In snap mode the items become SnapAll over the selection; in any other mode nothing moves. |
| View.IconView.ShowEvent | iconview.cpp:274-281 | The grid becomes GridFor: the icon size, the delegate's margins with topMargin() as reported, and textLineCount font heights. |
| View.IconView.ToggleSnap | iconview.cpp:348-355 | The action saves under the old movement, then sets Snap or Free and stores the choice. When snapping is turned off, it restores from the file just written, which is the as-written restore of a fresh save. |
| View.IconView.SortBy | iconview.cpp:360-367 | The proxy's sort mode becomes the chosen one. |

## Left out

- File I/O and the byte format of "positions.dat" (QDataStream) are not modelled. The file is a sequence of records, and whether it opens is a parameter.
- Win32 icon extraction, the PNG disk cache, QSettings and QStandardPaths are parameters: `library`, `extract`, `disk`, the constructor's setting values, and `documents`.
- Painting (`ItemDelegate::paint`) is not modelled beyond its cache lookup, which `CachedLayout` shares with `sizeHint`.
- QFontMetrics' `horizontalAdvance` and `elidedText` are abstract functions of `FontMetrics`. The text is a sequence of code points, not UTF-16 units.
- `QListView::dropEvent`, the base move, is not modelled. `DropEvent` starts from the rectangles it leaves.
- `visualRect` and `rectForIndex` are taken to be the same, with no scroll offset. For an index of another model, Qt's `QListView::rectForIndex` gives the null rectangle, so pass 2's default position for an unstored path, `visualRect` of an aggregator index, is taken to be the origin (Layout.Pass2Pos). `indexAt` is taken to be the lowest row whose rectangle contains the point; Qt's own hit-test order is not modelled.
- View.IconView.SortBy: the two `sort()` calls that reorder the proxy are left to Qt. The model captures only the stored mode.
- The proxy's mapping tables (`toSource`, `fromSource`) are inputs of the view, not computed from `lessThan`.
- Providers are value snapshots inside the aggregator. Directory loading and change notifications are not modelled.
- `QString::localeAwareCompare`, `QDateTime`'s order and the base proxy's `lessThan` are parameters (`Collation`).
- Integers are unbounded. 32-bit overflow of positions, sizes and grid arithmetic is not modelled.
- The null cases (a null aggregator, a delegate without a parent view) are not modelled. `savePositions` and `restorePositions` dereference the model before their null check.
- View.IconView.RestorePositions requires a positive grid. With a zero or negative grid width, the probe loop at `iconview.cpp:208-230` never ends once (0, 0) is covered.
- Delegate.ItemDelegate.TextItemForIndex requires `textLineCount >= 0`, because the line buffer is a QVector of that size.
- `mouseReleaseEvent`'s menus other than the snap toggle and the sort action are not modelled: icon-size and view-mode actions, the icons and desktops menus, and activation with `openUrl`.

## Findings

| source | as written | input that shows it | evidently intended | confidence | as-written member | corrected member |
|---|---|---|---|---|---|---|
| iconview.cpp:201-204 | Pass 2 mixes index spaces. `indexAt` returns a proxy index, and `model->filePath(under)` passes it to the aggregator, which reads it as its own row number. So the path compared is that of another file whenever the sort order differs from the aggregator's. | Two 10×10 icons at (0,0) and (128,0), paths "a" and "b", proxy order [1, 0], grid 128×96. Restoring right after a save moves them to (128,0) and (256,0) instead of leaving them in place. | Look up the row's default position through `mapFromSource`, and the path of the item under the position through `mapToSource`. Restoring a fresh save then moves nothing, whatever the sort order. | not executed | Restored.SaveThenRestoreAsWrittenMoves | Restored.SaveThenRestoreIntended |

The view's `RestorePositions` follows the code as written, so its contract can be read against the source directly. The corrected pass is `Restored.RestoreIntended`. The save/restore round trip is proved for that corrected pass.
