/**
 * The sort projection (SortModel): a sort mode and the four strict
 * "less-than" comparators it dispatches to. Locale-aware collation, the
 * datetime order and the proxy's own fallback comparator are parameters;
 * the case-sensitive string comparison used for mime names is defined here.
 */
module Sorting {
  import opened Qt
  import MultiDir

  datatype SortMode = NoMode | Name | Type | Date | Size

  /** The enumerator values of SortModel::SortMode. */
  function ModeValue(m: SortMode): (v: int)
    ensures -1 <= v <= 3
    ensures v == -1 <==> m == NoMode
  {
    match m
    case NoMode => -1
    case Name => 0
    case Type => 1
    case Date => 2
    case Size => 3
  }

  /** The mode an integer stands for, if any. */
  function ModeOf(v: int): (m: Option<SortMode>)
    ensures m.Some? <==> -1 <= v <= 3
    ensures m.Some? ==> ModeValue(m.value) == v
  {
    match v
    case -1 => Some(NoMode)
    case 0 => Some(Name)
    case 1 => Some(Type)
    case 2 => Some(Date)
    case 3 => Some(SortMode.Size)
    case _ => None
  }

  /** The enumerator values are distinct: reading a mode back from its value gives the mode. */
  lemma ModeValueRoundTrip(m: SortMode)
    ensures ModeOf(ModeValue(m)) == Some(m)
  {
  }

  /**
   * The library orders the comparators rely on: QString::localeAwareCompare as
   * a three-way compare, QDateTime's operator<, and the base proxy's lessThan
   * on source indexes.
   */
  datatype Collation = Collation(
    localeCompare: (string, string) -> int,
    dateBefore: (DateTime, DateTime) -> bool,
    baseLess: (MultiDir.ModelIndex, MultiDir.ModelIndex) -> bool)

  /** Each library order is irreflexive (a three-way compare gives 0 for equal strings). */
  ghost predicate Irreflexive(c: Collation) {
    && (forall s :: c.localeCompare(s, s) == 0)
    && (forall d :: !c.dateBefore(d, d))
    && (forall i :: !c.baseLess(i, i))
  }

  /**
   * QString::compare(a, b) < 0 with case sensitivity: ordinal comparison of
   * characters, a proper prefix sorting first.
   */
  function StringLess(a: string, b: string): bool {
    if |a| == 0 then |b| > 0
    else if |b| == 0 then false
    else if a[0] != b[0] then a[0] < b[0]
    else StringLess(a[1..], b[1..])
  }

  lemma {:induction false} StringLessIrreflexive(a: string)
    ensures !StringLess(a, a)
  {
    if |a| > 0 {
      StringLessIrreflexive(a[1..]);
    }
  }

  lemma {:induction false} StringLessTransitive(a: string, b: string, c: string)
    requires StringLess(a, b) && StringLess(b, c)
    ensures StringLess(a, c)
  {
    if |a| > 0 && |b| > 0 && |c| > 0 && a[0] == b[0] && b[0] == c[0] {
      StringLessTransitive(a[1..], b[1..], c[1..]);
    }
  }

  /** Any two different strings are ordered one way: the order is total. */
  lemma {:induction false} StringLessTotal(a: string, b: string)
    requires a != b
    ensures StringLess(a, b) || StringLess(b, a)
  {
    if |a| > 0 && |b| > 0 && a[0] == b[0] {
      assert a == [a[0]] + a[1..] && b == [b[0]] + b[1..];
      StringLessTotal(a[1..], b[1..]);
    }
  }

  /** The type "names" of the synthetic rows sort This PC, Trash, Documents. */
  lemma DesktopTypeOrder()
    ensures StringLess("-100", "-80") && StringLess("-80", "-90")
  {
  }

  /** The name of an index in the source model; "" when the source is not an aggregator. */
  function NameOf(agg: MultiDir.MultiDirModel?, i: MultiDir.ModelIndex): string
    reads agg
    requires agg != null ==> agg.Valid()
  {
    if agg != null then agg.FileName(i) else ""
  }

  function MimeOf(agg: MultiDir.MultiDirModel?, i: MultiDir.ModelIndex): string
    reads agg
    requires agg != null ==> agg.Valid()
  {
    if agg != null then agg.MimeTypeName(i) else ""
  }

  function SizeOf(agg: MultiDir.MultiDirModel?, i: MultiDir.ModelIndex): int
    reads agg
    requires agg != null ==> agg.Valid()
  {
    if agg != null then agg.Size(i) else -1
  }

  function DateOf(agg: MultiDir.MultiDirModel?, i: MultiDir.ModelIndex): DateTime
    reads agg
    requires agg != null ==> agg.Valid()
  {
    if agg != null then agg.LastModified(i) else InvalidDateTime
  }

  /** sortByName: the locale-aware compare of the two display names is negative. */
  function NameLess(agg: MultiDir.MultiDirModel?, c: Collation, l: MultiDir.ModelIndex, r: MultiDir.ModelIndex): (b: bool)
    reads agg
    requires agg != null ==> agg.Valid()
  {
    c.localeCompare(NameOf(agg, l), NameOf(agg, r)) < 0
  }

  /** sortByType: the mime names compare case-sensitively. */
  function TypeLess(agg: MultiDir.MultiDirModel?, l: MultiDir.ModelIndex, r: MultiDir.ModelIndex): (b: bool)
    reads agg
    requires agg != null ==> agg.Valid()
  {
    StringLess(MimeOf(agg, l), MimeOf(agg, r))
  }

  /** sortBySize: sizes compare as integers; an unresolved index has size -1. */
  function SizeLess(agg: MultiDir.MultiDirModel?, l: MultiDir.ModelIndex, r: MultiDir.ModelIndex): (b: bool)
    reads agg
    requires agg != null ==> agg.Valid()
    ensures b <==> SizeOf(agg, l) < SizeOf(agg, r)
    ensures agg == null ==> !b
  {
    SizeOf(agg, l) < SizeOf(agg, r)
  }

  /** sortByDate: QDateTime's order on the two modification times. */
  function DateLess(agg: MultiDir.MultiDirModel?, c: Collation, l: MultiDir.ModelIndex, r: MultiDir.ModelIndex): (b: bool)
    reads agg
    requires agg != null ==> agg.Valid()
  {
    c.dateBefore(DateOf(agg, l), DateOf(agg, r))
  }

  /** The size comparator is a strict weak order: irreflexive and transitive. */
  lemma SizeLessStrict(agg: MultiDir.MultiDirModel?, a: MultiDir.ModelIndex, b: MultiDir.ModelIndex, d: MultiDir.ModelIndex)
    requires agg != null ==> agg.Valid()
    ensures !SizeLess(agg, a, a)
    ensures SizeLess(agg, a, b) && SizeLess(agg, b, d) ==> SizeLess(agg, a, d)
  {
  }

  /** The type comparator is a strict order: irreflexive, transitive, and total on different mime names. */
  lemma TypeLessStrict(agg: MultiDir.MultiDirModel?, a: MultiDir.ModelIndex, b: MultiDir.ModelIndex, d: MultiDir.ModelIndex)
    requires agg != null ==> agg.Valid()
    ensures !TypeLess(agg, a, a)
    ensures TypeLess(agg, a, b) && TypeLess(agg, b, d) ==> TypeLess(agg, a, d)
    ensures MimeOf(agg, a) != MimeOf(agg, b) ==> TypeLess(agg, a, b) || TypeLess(agg, b, a)
  {
    StringLessIrreflexive(MimeOf(agg, a));
    if TypeLess(agg, a, b) && TypeLess(agg, b, d) {
      StringLessTransitive(MimeOf(agg, a), MimeOf(agg, b), MimeOf(agg, d));
    }
    if MimeOf(agg, a) != MimeOf(agg, b) {
      StringLessTotal(MimeOf(agg, a), MimeOf(agg, b));
    }
  }

  class SortModel {
    var sortMode: SortMode

    /** A new proxy sorts by name. */
    constructor ()
      ensures sortMode == Name
    {
      sortMode := Name;
    }

    /** setSortMode: stores the mode and nothing else; it does not reorder by itself. */
    method SetSortMode(mode: SortMode)
      modifies this
      ensures sortMode == mode
    {
      sortMode := mode;
    }

    /**
     * lessThan: exactly the comparator the mode selects; NoMode falls back to
     * the base proxy's comparator.
     */
    function LessThan(agg: MultiDir.MultiDirModel?, c: Collation, l: MultiDir.ModelIndex, r: MultiDir.ModelIndex): (b: bool)
      reads this, agg
      requires agg != null ==> agg.Valid()
    {
      match sortMode
      case Name => NameLess(agg, c, l, r)
      case Type => TypeLess(agg, l, r)
      case Size => SizeLess(agg, l, r)
      case Date => DateLess(agg, c, l, r)
      case NoMode => c.baseLess(l, r)
    }

    /** Whatever the mode, an index never sorts before itself when the library orders are irreflexive. */
    lemma LessThanIrreflexive(agg: MultiDir.MultiDirModel?, c: Collation, i: MultiDir.ModelIndex)
      requires agg != null ==> agg.Valid()
      requires Irreflexive(c)
      ensures !LessThan(agg, c, i, i)
    {
      StringLessIrreflexive(MimeOf(agg, i));
      assert c.localeCompare(NameOf(agg, i), NameOf(agg, i)) == 0;
      assert !c.dateBefore(DateOf(agg, i), DateOf(agg, i));
    }

    /**
     * In size or type mode lessThan is a strict order whatever the library's
     * compare functions do: irreflexive and transitive.
     */
    lemma LessThanStrict(agg: MultiDir.MultiDirModel?, c: Collation, a: MultiDir.ModelIndex, b: MultiDir.ModelIndex, d: MultiDir.ModelIndex)
      requires agg != null ==> agg.Valid()
      requires sortMode == SortMode.Size || sortMode == Type
      ensures !LessThan(agg, c, a, a)
      ensures LessThan(agg, c, a, b) && LessThan(agg, c, b, d) ==> LessThan(agg, c, a, d)
    {
      if sortMode == Type {
        TypeLessStrict(agg, a, b, d);
      } else {
        SizeLessStrict(agg, a, b, d);
      }
    }
  }
}
