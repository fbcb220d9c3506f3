/** The dict-shaped container of the template catalogue, the remix designer
    and the template loader. Legacy JSON templates describe a slot with
    `canvas_x`, `canvas_y`, `width_px`, `height_px`; generated ones with `x`,
    `y`, `w`, `h`. Every key is optional; a key that is absent or holds `null`
    is `None`. Keys the program never reads are not part of the model. */
module Boxes {
  import opened Common

  datatype Box = Box(
    id: Option<string>, role: Option<string>,
    canvasX: Option<int>, canvasY: Option<int>, widthPx: Option<int>, heightPx: Option<int>,
    x: Option<int>, y: Option<int>, w: Option<int>, h: Option<int>,
    rotationDeg: Option<int>, sizeClass: Option<string>)

  /** Python's `a or b` on two looked-up numbers: a missing value and `0` are
      both false, so `b` is taken. */
  function Or(a: Option<int>, b: Option<int>): (r: Option<int>)
    ensures a.Some? && a.value != 0 ==> r == a
    ensures (a.None? || a.value == 0) ==> r == b
  {
    if a.Some? && a.value != 0 then a else b
  }

  /** `c.get("canvas_x") or c.get("x")` and its three companions: the position
      and size the designer reads from a box of either format. */
  function LeftOf(b: Box): Option<int> { Or(b.canvasX, b.x) }

  function TopOf(b: Box): Option<int> { Or(b.canvasY, b.y) }

  function WidthOf(b: Box): Option<int> { Or(b.widthPx, b.w) }

  function HeightOf(b: Box): Option<int> { Or(b.heightPx, b.h) }

  /** A box whose four extents can all be read: the arithmetic of the designer
      raises a `TypeError` on any other. */
  predicate Resolvable(b: Box) {
    LeftOf(b).Some? && TopOf(b).Some? && WidthOf(b).Some? && HeightOf(b).Some?
  }

  /** `make_container(id, x, y, w, h)`: a generated box, each extent cut to an
      integer by `int()`. */
  function MakeContainer(id: string, x: real, y: real, w: real, h: real): (r: Box)
    ensures r.id == Some(id) && r.role.None? && r.rotationDeg.None?
    ensures r.x.Some? && r.y.Some? && r.w.Some? && r.h.Some?
    ensures r.canvasX.None? && r.canvasY.None? && r.widthPx.None? && r.heightPx.None?
  {
    Box(Some(id), None, None, None, None, None,
        Some(Trunc(x)), Some(Trunc(y)), Some(Trunc(w)), Some(Trunc(h)), None, None)
  }

  /** `normalize_container`: a copy whose generated keys take the legacy
      values where those exist; everything else is copied unchanged. */
  function Normalize(b: Box): Box {
    b.(x := if b.canvasX.Some? then b.canvasX else b.x,
       y := if b.canvasY.Some? then b.canvasY else b.y,
       w := if b.widthPx.Some? then b.widthPx else b.w,
       h := if b.heightPx.Some? then b.heightPx else b.h)
  }

  /** Normalising keeps every legacy key, overwrites a generated key exactly
      when its legacy counterpart is present, and is idempotent. */
  lemma NormalizeSpec(b: Box)
    ensures var n := Normalize(b);
      n.id == b.id && n.role == b.role && n.rotationDeg == b.rotationDeg && n.sizeClass == b.sizeClass
      && n.canvasX == b.canvasX && n.canvasY == b.canvasY && n.widthPx == b.widthPx && n.heightPx == b.heightPx
    ensures var n := Normalize(b);
      (b.canvasX.Some? ==> n.x == b.canvasX) && (b.canvasX.None? ==> n.x == b.x)
      && (b.canvasY.Some? ==> n.y == b.canvasY) && (b.canvasY.None? ==> n.y == b.y)
      && (b.widthPx.Some? ==> n.w == b.widthPx) && (b.widthPx.None? ==> n.w == b.w)
      && (b.heightPx.Some? ==> n.h == b.heightPx) && (b.heightPx.None? ==> n.h == b.h)
    ensures Normalize(Normalize(b)) == Normalize(b)
  {
  }

  /** The ids of a list of boxes, in order. */
  function BoxIds(bs: seq<Box>): (r: seq<Option<string>>)
    ensures |r| == |bs|
    ensures forall i :: 0 <= i < |bs| ==> r[i] == bs[i].id
  {
    seq(|bs|, i requires 0 <= i < |bs| => bs[i].id)
  }

  lemma BoxIdsAppend(a: seq<Box>, b: seq<Box>)
    ensures BoxIds(a + b) == BoxIds(a) + BoxIds(b)
  {
  }
}
