/**
 * The aggregator (MultiDirModel): an ordered list of providers flattened into
 * one cached list of (provider, row) references, rebuilt by reset(), and the
 * per-item accessors that resolve an aggregate row back to its provider and
 * fall back to fixed defaults when it cannot be resolved.
 */
module MultiDir {
  import opened Qt
  import DesktopIcons
  import FileSystem

  /**
   * A provider as the aggregator sees it when it rebuilds or resolves: a
   * filesystem directory with its entries, the synthetic model, or a model of
   * any other kind (which the accessors do not recognise).
   */
  datatype Provider =
    | FileSystemProvider(entries: seq<FileSystem.FileEntry>)
    | DesktopProvider(documents: string)
    | OtherProvider(count: nat)
  {
    /** The provider's rowCount(). */
    function Rows(): nat {
      match this
      case FileSystemProvider(es) => |es|
      case DesktopProvider(_) => DesktopIcons.RowCount
      case OtherProvider(n) => n
    }
  }

  /** A cached QModelIndex of a provider: which provider (by position) and which row. */
  datatype SourceIndex = SourceIndex(provider: nat, row: nat)

  /** A QModelIndex of the aggregator (or of a view over it): invalid, or a row. */
  datatype ModelIndex = InvalidIndex | Index(row: int)

  /** A resolved index: the owning provider and the row inside it. */
  datatype Resolved = Resolved(provider: Provider, row: nat)

  /** QAbstractListModel::flags of a valid index: ItemIsSelectable | ItemIsEnabled | ItemNeverHasChildren. */
  const ListModelFlags: bv32 := 1 | 32 | 128

  /** The aggregator has one column. */
  const ColumnCount: int := 1

  /** Signals the aggregator emits. */
  datatype Signal = ModelReset | Loaded

  /** The indexes of provider `i`'s first `n` rows, in row order. */
  function RowsOf(i: nat, n: nat): (s: seq<SourceIndex>)
    ensures |s| == n
    ensures forall r :: 0 <= r < n ==> s[r] == SourceIndex(i, r)
  {
    seq(n, r requires 0 <= r < n => SourceIndex(i, r))
  }

  /** The rebuilt cache: every provider in order, each contributing its rows 0..n-1 in order. */
  function Flatten(ms: seq<Provider>): seq<SourceIndex> {
    if |ms| == 0 then []
    else Flatten(ms[..|ms| - 1]) + RowsOf(|ms| - 1, ms[|ms| - 1].Rows())
  }

  /** The sum of the providers' row counts. */
  function SumRows(ms: seq<Provider>): nat {
    if |ms| == 0 then 0 else SumRows(ms[..|ms| - 1]) + ms[|ms| - 1].Rows()
  }

  /** Every reference in a cache names an existing provider and one of its rows. */
  ghost predicate References(ms: seq<Provider>, cache: seq<SourceIndex>) {
    forall k :: 0 <= k < |cache| ==>
      cache[k].provider < |ms| && cache[k].row < ms[cache[k].provider].Rows()
  }

  /** The rebuilt cache has one entry per provider row and only valid references. */
  lemma {:induction false} FlattenSize(ms: seq<Provider>)
    ensures |Flatten(ms)| == SumRows(ms)
    ensures References(ms, Flatten(ms))
  {
    if |ms| > 0 {
      var init := ms[..|ms| - 1];
      FlattenSize(init);
      var f := Flatten(ms);
      forall k | 0 <= k < |f|
        ensures f[k].provider < |ms| && f[k].row < ms[f[k].provider].Rows()
      {
        if k < |Flatten(init)| {
          assert f[k] == Flatten(init)[k];
          assert ms[f[k].provider] == init[f[k].provider];
        }
      }
    }
  }

  /**
   * Row `r` of provider `i` sits at aggregate row SumRows(ms[..i]) + r: the
   * cache lists providers in insertion order and each provider's rows in order.
   */
  lemma {:induction false} FlattenAt(ms: seq<Provider>, i: nat, r: nat)
    requires i < |ms| && r < ms[i].Rows()
    ensures SumRows(ms[..i]) + r < |Flatten(ms)|
    ensures Flatten(ms)[SumRows(ms[..i]) + r] == SourceIndex(i, r)
  {
    var init := ms[..|ms| - 1];
    FlattenSize(ms);
    FlattenSize(init);
    if i == |ms| - 1 {
      assert ms[..i] == init;
    } else {
      assert ms[..i] == init[..i];
      FlattenAt(init, i, r);
    }
  }

  /** Adding a provider and rebuilding extends the old cache at its end. */
  lemma FlattenAppend(ms: seq<Provider>, p: Provider)
    ensures Flatten(ms + [p]) == Flatten(ms) + RowsOf(|ms|, p.Rows())
  {
    assert (ms + [p])[..|ms|] == ms;
  }

  /**
   * add() followed by reset(): every row the old providers had keeps its
   * aggregate row number, and the new provider's rows follow them in order.
   */
  lemma AddThenReset(ms: seq<Provider>, p: Provider)
    ensures |Flatten(ms + [p])| == |Flatten(ms)| + p.Rows()
    ensures forall k :: 0 <= k < |Flatten(ms)| ==> Flatten(ms + [p])[k] == Flatten(ms)[k]
    ensures forall r :: 0 <= r < p.Rows() ==> Flatten(ms + [p])[|Flatten(ms)| + r] == SourceIndex(|ms|, r)
  {
    FlattenAppend(ms, p);
  }

  class MultiDirModel {
    var models: seq<Provider>
    var cache: seq<SourceIndex>
    var signals: seq<Signal>

    /** Every cached reference is valid at read time. */
    ghost predicate Valid()
      reads this
    {
      References(models, cache)
    }

    /** A new aggregator has no providers and an empty cache. */
    constructor ()
      ensures models == [] && cache == [] && signals == []
      ensures Valid()
    {
      models := [];
      cache := [];
      signals := [];
    }

    /** add(): appends a provider; the cache is untouched until the next reset. */
    method Add(p: Provider)
      requires Valid()
      modifies this`models
      ensures models == old(models) + [p]
      ensures cache == old(cache) && signals == old(signals)
      ensures Valid()
    {
      models := models + [p];
      assert forall k :: 0 <= k < |cache| ==> models[cache[k].provider] == old(models)[cache[k].provider];
    }

    /**
     * reset(): clears the cache, appends every provider's rows in order, then
     * signals the reset and `loaded` once.
     */
    method Reset()
      modifies this`cache, this`signals
      ensures cache == Flatten(models)
      ensures |cache| == SumRows(models)
      ensures signals == old(signals) + [ModelReset, Loaded]
      ensures Valid()
    {
      cache := [];
      var i := 0;
      while i < |models|
        invariant 0 <= i <= |models|
        invariant cache == Flatten(models[..i])
        invariant signals == old(signals)
      {
        var n := models[i].Rows();
        var y := 0;
        while y < n
          invariant 0 <= y <= n
          invariant cache == Flatten(models[..i]) + RowsOf(i, y)
          invariant signals == old(signals)
        {
          cache := cache + [SourceIndex(i, y)];
          y := y + 1;
        }
        assert models[..i + 1][..i] == models[..i];
        i := i + 1;
      }
      assert models[..i] == models;
      FlattenSize(models);
      signals := signals + [ModelReset, Loaded];
    }

    function RowCount(): int
      reads this
    {
      |cache|
    }

    /**
     * mapToSource(): the cached reference of a row, or nothing when the cache
     * is empty, the index is invalid or the row is out of range.
     */
    function MapToSource(index: ModelIndex): (r: Option<SourceIndex>)
      reads this
      ensures r.Some? <==> index.Index? && 0 <= index.row < |cache|
      ensures r.Some? ==> r.value == cache[index.row]
    {
      if |cache| == 0 || !index.Index? || index.row < 0 || index.row >= RowCount() then None
      else Some(cache[index.row])
    }

    /** The provider owning an index and the row inside it, when the index resolves. */
    function Owner(index: ModelIndex): (o: Option<Resolved>)
      reads this
      requires Valid()
      ensures o.Some? <==> MapToSource(index).Some?
      ensures o.Some? ==> o.value.row < o.value.provider.Rows()
    {
      match MapToSource(index)
      case None => None
      case Some(si) => Some(Resolved(models[si.provider], si.row))
    }

    /** The index resolves to a row of a filesystem provider. */
    predicate IsFileRow(index: ModelIndex)
      reads this
      requires Valid()
    {
      Owner(index).Some? && Owner(index).value.provider.FileSystemProvider?
    }

    /** The index resolves to a row of the synthetic provider. */
    predicate IsDesktopRow(index: ModelIndex)
      reads this
      requires Valid()
    {
      Owner(index).Some? && Owner(index).value.provider.DesktopProvider?
    }

    /** The filesystem entry behind a filesystem row. */
    function EntryOf(index: ModelIndex): FileSystem.FileEntry
      reads this
      requires Valid() && IsFileRow(index)
    {
      var o := Owner(index).value;
      o.provider.entries[o.row]
    }

    /** data(): delegates to the owning provider when the index resolves, otherwise empty. */
    function Data(index: ModelIndex, role: Role): (r: Variant)
      reads this
      requires Valid()
      ensures Owner(index).None? ==> r == Empty
      ensures IsFileRow(index) ==> r == FileSystem.Data(Owner(index).value.row, EntryOf(index), role)
      ensures IsDesktopRow(index) ==> r == DesktopIcons.Data(Owner(index).value.row, role)
      ensures Owner(index).Some? && Owner(index).value.provider.OtherProvider? ==>
        r == BaseData(Owner(index).value.row, RoleCode(role))
    {
      match Owner(index)
      case None => Empty
      case Some(o) =>
        match o.provider
        case FileSystemProvider(es) => FileSystem.Data(o.row, es[o.row], role)
        case DesktopProvider(_) => DesktopIcons.Data(o.row, role)
        case OtherProvider(_) => BaseData(o.row, RoleCode(role))
    }

    /** fileName(): the provider's name for the row; "" when unresolved or of an unknown kind. */
    function FileName(index: ModelIndex): (r: string)
      reads this
      requires Valid()
      ensures !IsFileRow(index) && !IsDesktopRow(index) ==> r == ""
      ensures IsFileRow(index) ==> r == EntryOf(index).fileName
      ensures IsDesktopRow(index) ==> r == DesktopIcons.FileName(Owner(index).value.row)
    {
      match Owner(index)
      case None => ""
      case Some(o) =>
        match o.provider
        case FileSystemProvider(es) => es[o.row].fileName
        case DesktopProvider(_) => DesktopIcons.FileName(o.row)
        case OtherProvider(_) => ""
    }

    /** filePath(): the identity key of the row; "" when unresolved or of an unknown kind. */
    function FilePath(index: ModelIndex): (r: string)
      reads this
      requires Valid()
      ensures !IsFileRow(index) && !IsDesktopRow(index) ==> r == ""
      ensures IsFileRow(index) ==> r == EntryOf(index).path
      ensures IsDesktopRow(index) ==>
        r == DesktopIcons.FilePath(Owner(index).value.row, Owner(index).value.provider.documents)
    {
      match Owner(index)
      case None => ""
      case Some(o) =>
        match o.provider
        case FileSystemProvider(es) => es[o.row].path
        case DesktopProvider(docs) => DesktopIcons.FilePath(o.row, docs)
        case OtherProvider(_) => ""
    }

    /** fileInfo(): present only for filesystem rows; synthetic rows get an empty QFileInfo. */
    function FileInfo(index: ModelIndex): (r: Option<FileSystem.FileEntry>)
      reads this
      requires Valid()
      ensures r.Some? <==> IsFileRow(index)
      ensures r.Some? ==> r.value == EntryOf(index)
    {
      match Owner(index)
      case None => None
      case Some(o) =>
        match o.provider
        case FileSystemProvider(es) => Some(es[o.row])
        case DesktopProvider(_) => None
        case OtherProvider(_) => None
    }

    /**
     * flags(): the provider's flags for a resolved row. Any other valid index
     * (a row of a provider of unknown kind, or a row beyond the cache, as a
     * stale index kept across a reset) gets what QAbstractListModel gives a
     * valid index: selectable, enabled, never has children. An invalid index
     * gets no flags.
     */
    function Flags(index: ModelIndex): (r: bv32)
      reads this
      requires Valid()
      ensures !(index.Index? && index.row >= 0) ==> r == 0
      ensures IsFileRow(index) ==> r == EntryOf(index).flags
      ensures IsDesktopRow(index) ==> r == DesktopIcons.Flags(Owner(index).value.row)
      ensures index.Index? && index.row >= 0 && !IsFileRow(index) && !IsDesktopRow(index) ==> r == ListModelFlags
    {
      match Owner(index)
      case None => if index.Index? && index.row >= 0 then ListModelFlags else 0
      case Some(o) =>
        match o.provider
        case FileSystemProvider(es) => es[o.row].flags
        case DesktopProvider(_) => DesktopIcons.Flags(o.row)
        case OtherProvider(_) => ListModelFlags
    }

    /** mimeTypeName(): the provider's mime name for the row; "" when unresolved or of an unknown kind. */
    function MimeTypeName(index: ModelIndex): (r: string)
      reads this
      requires Valid()
      ensures !IsFileRow(index) && !IsDesktopRow(index) ==> r == ""
      ensures IsFileRow(index) ==> r == EntryOf(index).mimeTypeName
      ensures IsDesktopRow(index) ==> r == DesktopIcons.MimeTypeName(Owner(index).value.row)
    {
      match Owner(index)
      case None => ""
      case Some(o) =>
        match o.provider
        case FileSystemProvider(es) => es[o.row].mimeTypeName
        case DesktopProvider(_) => DesktopIcons.MimeTypeName(o.row)
        case OtherProvider(_) => ""
    }

    /** size(): the provider's size for the row; -1 when unresolved or of an unknown kind. */
    function Size(index: ModelIndex): (r: int)
      reads this
      requires Valid()
      ensures !IsFileRow(index) && !IsDesktopRow(index) ==> r == -1
      ensures IsFileRow(index) ==> r == EntryOf(index).size
      ensures IsDesktopRow(index) ==> r == DesktopIcons.Size(Owner(index).value.row) && r < 0
    {
      match Owner(index)
      case None => -1
      case Some(o) =>
        match o.provider
        case FileSystemProvider(es) => es[o.row].size
        case DesktopProvider(_) => DesktopIcons.Size(o.row)
        case OtherProvider(_) => -1
    }

    /**
     * lastModified(): the file's modification time for filesystem rows; an
     * invalid datetime for synthetic rows, unresolved indexes and unknown kinds.
     */
    function LastModified(index: ModelIndex): (r: DateTime)
      reads this
      requires Valid()
      ensures !IsFileRow(index) ==> r == InvalidDateTime
      ensures IsFileRow(index) ==> r == EntryOf(index).lastModified
    {
      match Owner(index)
      case None => InvalidDateTime
      case Some(o) =>
        match o.provider
        case FileSystemProvider(es) => es[o.row].lastModified
        case DesktopProvider(_) => DesktopIcons.LastModified(o.row)
        case OtherProvider(_) => InvalidDateTime
    }

    /** The identity keys of aggregate rows 0..k-1, as filePath() gives them. */
    function PathsUpTo(k: nat): (ps: seq<string>)
      reads this
      requires Valid() && k <= |cache|
      ensures |ps| == k
      ensures forall i :: 0 <= i < k ==> ps[i] == FilePath(Index(i))
    {
      if k == 0 then [] else PathsUpTo(k - 1) + [FilePath(Index(k - 1))]
    }

    /** The identity key of every aggregate row, in row order. */
    function Paths(): (ps: seq<string>)
      reads this
      requires Valid()
      ensures |ps| == RowCount()
      ensures forall i :: 0 <= i < |ps| ==> ps[i] == FilePath(Index(i))
    {
      PathsUpTo(|cache|)
    }

    /**
     * After a rebuild, aggregate row SumRows(models[..i]) + r resolves to row
     * `r` of provider `i`: resolving inverts the flattening.
     */
    lemma MapToSourceAfterReset(i: nat, r: nat)
      requires cache == Flatten(models)
      requires i < |models| && r < models[i].Rows()
      ensures MapToSource(Index(SumRows(models[..i]) + r)) == Some(SourceIndex(i, r))
    {
      FlattenAt(models, i, r);
    }
  }
}
