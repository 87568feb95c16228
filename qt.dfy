/**
 * Value types shared by the icon-grid pipeline: the small part of Qt's
 * vocabulary (points, sizes, rectangles, model roles, view modes, variants)
 * that the models and the view exchange.
 */
module Qt {

  datatype Option<T> = None | Some(value: T)

  /** QPoint: a pixel coordinate. */
  datatype Point = Point(x: int, y: int)

  /** QSize: a width and a height. */
  datatype Size = Size(w: int, h: int)

  /** QRect given by its top-left corner and its size. */
  datatype Rect = Rect(topLeft: Point, size: Size)

  const Origin: Point := Point(0, 0)

  /** QRect::contains for a non-proper test: left <= x <= right, where right = left + width - 1. */
  predicate Contains(r: Rect, p: Point) {
    && r.topLeft.x <= p.x < r.topLeft.x + r.size.w
    && r.topLeft.y <= p.y < r.topLeft.y + r.size.h
  }

  /**
   * QDateTime as far as the core needs it: either invalid (what the synthetic
   * items and unresolved indexes give) or an instant in milliseconds.
   */
  datatype DateTime = InvalidDateTime | DateTime(msecs: int)

  /** Item data roles: Qt::DisplayRole, Qt::DecorationRole, and every other role by its code. */
  datatype Role = DisplayRole | DecorationRole | OtherRole(code: int)

  /** The integer value of a role (Qt::DisplayRole is 0, Qt::DecorationRole is 1). */
  function RoleCode(role: Role): int {
    match role
    case DisplayRole => 0
    case DecorationRole => 1
    case OtherRole(c) => c
  }

  datatype ViewMode = ListMode | IconMode

  /** QListView::Movement. */
  datatype Movement = Static | Free | Snap

  /** A QIcon: null, or an image identified by an opaque handle. */
  datatype Icon = NullIcon | Image(handle: int)

  /** The key of the filesystem icon cache: (absolute path, size or symlink-target length). */
  datatype IconKey = IconKey(path: string, n: int)

  /**
   * A QVariant returned by a model's data(): empty, text, a request for an
   * item's decoration icon, or whatever the wrapped Qt base model answers for
   * a role this project does not interpret.
   */
  datatype Variant =
    | Empty
    | Text(text: string)
    | DesktopIconRequest(iconId: int)
    | FileIconRequest(key: IconKey)
    | BaseData(row: int, role: int)
}
