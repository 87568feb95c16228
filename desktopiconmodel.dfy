/**
 * The synthetic provider: three special desktop items ("This PC", "Trash",
 * "Documents") described by constant tables indexed by row, plus the icon
 * cache the model keeps per icon resource id.
 */
module DesktopIcons {
  import opened Qt

  /** Shell CLSID paths of the two virtual folders. */
  const PCID: string := "::{20D04FE0-3AEA-1069-A2D8-08002B30309D}"
  const TrashID: string := "::{645FF040-5081-101B-9F08-00AA002F954E}"

  const RowCount: int := 3
  const ColumnCount: int := 1
  const DefaultScale: int := 48

  /** Qt::ItemFlag bits. */
  const ItemIsSelectable: bv32 := 1
  const ItemIsEditable: bv32 := 2
  const ItemIsDragEnabled: bv32 := 4
  const ItemIsDropEnabled: bv32 := 8
  const ItemIsUserCheckable: bv32 := 16
  const ItemIsEnabled: bv32 := 32

  predicate IsItemRow(row: int) {
    0 <= row < RowCount
  }

  /** Display name of each row; any other row has no name. */
  function FileName(row: int): (r: string)
    ensures r != "" <==> IsItemRow(row)
  {
    match row
    case 0 => "This PC"
    case 1 => "Trash"
    case 2 => "Documents"
    case _ => ""
  }

  /**
   * Identity key of each row: the two CLSID paths, then the user's Documents
   * location (an input here: it comes from QStandardPaths).
   */
  function FilePath(row: int, documents: string): (r: string)
    ensures !IsItemRow(row) ==> r == ""
    ensures row == 2 ==> r == documents
    ensures row == 0 || row == 1 ==> |r| > 2 && r[0] == ':' && r[1] == ':'
  {
    match row
    case 0 => PCID
    case 1 => TrashID
    case 2 => documents
    case _ => ""
  }

  /** Sentinel sizes: negative for the three items, 0 for any other row. */
  function Size(row: int): (r: int)
    ensures IsItemRow(row) ==> r < 0
    ensures !IsItemRow(row) ==> r == 0
  {
    match row
    case 0 => -100
    case 1 => -80
    case 2 => -90
    case _ => 0
  }

  /** Decimal spelling of a (negative, two- or three-digit) sentinel size. */
  function SentinelText(n: int): string
    requires -999 <= n <= -10
  {
    var m := -n;
    if m >= 100 then ['-', Digit(m / 100), Digit(m / 10 % 10), Digit(m % 10)]
    else ['-', Digit(m / 10), Digit(m % 10)]
  }

  function Digit(d: int): char
    requires 0 <= d <= 9
  {
    ('0' as int + d) as char
  }

  /**
   * The "mime type" of each row is the decimal spelling of its sentinel size,
   * so sorting by type groups the synthetic items apart from real mime names.
   */
  function MimeTypeName(row: int): (r: string)
    ensures !IsItemRow(row) ==> r == ""
    ensures IsItemRow(row) ==> r == SentinelText(Size(row))
  {
    match row
    case 0 => "-100"
    case 1 => "-80"
    case 2 => "-90"
    case _ => ""
  }

  /** The shell32 icon resource of each row, -1 for any other row. */
  function IconId(row: int): (r: int)
    ensures IsItemRow(row) <==> r > 0
    ensures !IsItemRow(row) ==> r == -1
  {
    match row
    case 0 => 16
    case 1 => 32
    case 2 => 267
    case _ => -1
  }

  /** The synthetic items never carry a modification time. */
  function LastModified(row: int): (r: DateTime)
    ensures r == InvalidDateTime
  {
    InvalidDateTime
  }

  /** Every index is selectable, draggable and enabled, and nothing else. */
  function Flags(row: int): (r: bv32)
    ensures r & ItemIsSelectable != 0 && r & ItemIsDragEnabled != 0 && r & ItemIsEnabled != 0
    ensures r & (ItemIsEditable | ItemIsDropEnabled | ItemIsUserCheckable) == 0
  {
    ItemIsSelectable | ItemIsDragEnabled | ItemIsEnabled
  }

  /**
   * data(): the name for the display role, the row's icon for the decoration
   * role, an empty variant for every other role.
   */
  function Data(row: int, role: Role): (r: Variant)
    ensures role == DisplayRole ==> r == Text(FileName(row))
    ensures role == DecorationRole ==> r == DesktopIconRequest(IconId(row))
    ensures role.OtherRole? ==> r == Empty
  {
    match role
    case DisplayRole => Text(FileName(row))
    case DecorationRole => DesktopIconRequest(IconId(row))
    case OtherRole(_) => Empty
  }

  /** The three identity keys are distinct whenever Documents is a real path. */
  lemma PathsDistinct(documents: string)
    requires |documents| < 2 || documents[0] != ':' || documents[1] != ':'
    ensures FilePath(0, documents) != FilePath(1, documents)
    ensures FilePath(0, documents) != FilePath(2, documents)
    ensures FilePath(1, documents) != FilePath(2, documents)
  {
    assert PCID[38] != TrashID[38];
  }

  /**
   * The part of DesktopIconModel that changes: the icon cache keyed by
   * resource id and the icon scale.
   */
  class DesktopIconModel {
    var iconCache: map<int, Icon>
    var scale: int

    constructor ()
      ensures iconCache == map[] && scale == DefaultScale
    {
      iconCache := map[];
      scale := DefaultScale;
    }

    /** setScale: forgets every cached icon and records the new scale. */
    method SetScale(newScale: int)
      modifies this
      ensures iconCache == map[] && scale == newScale
    {
      iconCache := map[];
      scale := newScale;
    }

    /**
     * getIcon: loads the resource at the current scale (`library` stands for
     * the Win32 image loader) and caches the result, null or not.
     */
    method GetIcon(iconId: int, library: (int, int) -> Icon) returns (icon: Icon)
      modifies this`iconCache
      ensures icon == library(iconId, scale)
      ensures iconCache == old(iconCache)[iconId := icon]
    {
      icon := library(iconId, scale);
      iconCache := iconCache[iconId := icon];
    }

    /**
     * fileIcon: a cached icon is returned as is; otherwise a PNG from the
     * on-disk cache (`disk`, keyed by id and scale) is returned without being
     * cached; otherwise the icon is loaded and cached by GetIcon.
     */
    method FileIcon(row: int, disk: (int, int) -> Option<Icon>, library: (int, int) -> Icon)
      returns (icon: Icon)
      modifies this`iconCache
      ensures var id := IconId(row);
        if id in old(iconCache) then icon == old(iconCache)[id] && iconCache == old(iconCache)
        else if disk(id, scale).Some? then icon == disk(id, scale).value && iconCache == old(iconCache)
        else icon == library(id, scale) && iconCache == old(iconCache)[id := icon]
    {
      var iconId := IconId(row);
      if iconId in iconCache {
        return iconCache[iconId];
      }
      var pixmap := disk(iconId, scale);
      if pixmap.Some? {
        return pixmap.value;
      }
      icon := GetIcon(iconId, library);
    }
  }
}
