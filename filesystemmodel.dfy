/**
 * The deterministic part of the filesystem provider: the display-name rule
 * that hides the ".lnk" extension of shortcuts, the role dispatch of data(),
 * and the icon cache keyed by (absolute path, size).
 */
module FileSystem {
  import opened Qt

  const DefaultScale: int := 48

  /**
   * What QFileSystemModel and QFileInfo report for one directory entry. The
   * values come from the operating system and are inputs here.
   */
  datatype FileEntry = FileEntry(
    fileName: string,       // QFileSystemModel::fileName
    displayName: string,    // QFileSystemModel::data(DisplayRole)
    path: string,           // filePath / absoluteFilePath
    mimeTypeName: string,   // QMimeDatabase().mimeTypeForFile(path).name()
    size: int,              // QFileInfo::size (64-bit)
    lastModified: DateTime,
    isSymLink: bool,
    symLinkTarget: string,
    flags: bv32)             // QFileSystemModel::flags

  predicate EndsWithLnk(s: string) {
    |s| >= 4 && s[|s| - 4..] == ".lnk"
  }

  /**
   * The display name shown for an entry: exactly one trailing ".lnk"
   * (case-sensitive) is removed, any other name is shown unchanged.
   */
  function StripLnk(name: string): (r: string)
    ensures |r| <= |name| && r == name[..|r|]
    ensures EndsWithLnk(name) ==> |r| == |name| - 4
    ensures !EndsWithLnk(name) ==> r == name
  {
    if EndsWithLnk(name) then name[..|name| - 4] else name
  }

  /** Stripping removes one suffix only: a second ".lnk" survives. */
  lemma StripLnkOnce(base: string)
    ensures StripLnk(base + ".lnk" + ".lnk") == base + ".lnk"
  {
    var s := base + ".lnk" + ".lnk";
    assert s[|s| - 4..] == ".lnk";
    assert s[..|s| - 4] == base + ".lnk";
  }

  /** The icon-cache key: for a symlink the length of its target string, otherwise the file size. */
  function IconKeyOf(e: FileEntry): (k: IconKey)
    ensures k.path == e.path
    ensures k.n == (if e.isSymLink then |e.symLinkTarget| else e.size)
  {
    IconKey(e.path, if e.isSymLink then |e.symLinkTarget| else e.size)
  }

  /**
   * data(): the display role yields the shortcut-stripped name, the decoration
   * role the entry's icon, every other role what QFileSystemModel answers.
   */
  function Data(row: int, e: FileEntry, role: Role): (r: Variant)
    ensures role == DisplayRole ==> r == Text(StripLnk(e.displayName))
    ensures role == DecorationRole ==> r == FileIconRequest(IconKeyOf(e))
    ensures role.OtherRole? ==> r == BaseData(row, role.code)
  {
    match role
    case DisplayRole => Text(StripLnk(e.displayName))
    case DecorationRole => FileIconRequest(IconKeyOf(e))
    case OtherRole(code) => BaseData(row, code)
  }

  /** The part of FileSystemModel that changes: the icon cache and the scale. */
  class FileSystemModel {
    var iconCache: map<IconKey, Icon>
    var scale: int

    constructor ()
      ensures iconCache == map[] && scale == DefaultScale
    {
      iconCache := map[];
      scale := DefaultScale;
    }

    /** setScale: forgets every cached icon and records the new scale. */
    method SetScale(newScale: int)
      modifies this
      ensures iconCache == map[] && scale == newScale
    {
      iconCache := map[];
      scale := newScale;
    }

    /**
     * getIcon: extracts the shell icon at the current scale (`extract` stands
     * for the Win32 extraction) and caches it under the entry's key, even when
     * it is null.
     */
    method GetIcon(e: FileEntry, extract: (FileEntry, int) -> Icon) returns (icon: Icon)
      modifies this`iconCache
      ensures icon == extract(e, scale)
      ensures iconCache == old(iconCache)[IconKeyOf(e) := icon]
    {
      icon := extract(e, scale);
      iconCache := iconCache[IconKeyOf(e) := icon];
    }

    /**
     * fileIcon: a cached icon is returned as is; otherwise a PNG from the
     * on-disk cache (`disk`, keyed by path, size and scale) is returned
     * uncached; otherwise GetIcon extracts and caches one, and a null result
     * falls back to QFileSystemModel's own icon (`fallback`).
     */
    method FileIcon(e: FileEntry, disk: (string, int, int) -> Option<Icon>,
                    extract: (FileEntry, int) -> Icon, fallback: Icon)
      returns (icon: Icon)
      modifies this`iconCache
      ensures var key := IconKeyOf(e);
        if key in old(iconCache) then icon == old(iconCache)[key] && iconCache == old(iconCache)
        else if disk(e.path, e.size, scale).Some? then
          icon == disk(e.path, e.size, scale).value && iconCache == old(iconCache)
        else
          var made := extract(e, scale);
          iconCache == old(iconCache)[key := made] &&
          icon == (if made == NullIcon then fallback else made)
    {
      var key := IconKeyOf(e);
      if key in iconCache {
        return iconCache[key];
      }
      var pixmap := disk(e.path, e.size, scale);
      if pixmap.Some? {
        return pixmap.value;
      }
      icon := GetIcon(e, extract);
      if icon == NullIcon {
        icon := fallback;
      }
    }
  }
}
