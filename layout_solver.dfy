/** `LayoutSolver` (engine/layout_solver.py): a recursive walk of the layout
    tree over a rectangle that appends one container per slot to a shared
    list. `Emit` is the specification of that walk; the methods, which thread
    the list exactly as the Python code does, are proved to produce it. */
module Solver {
  import opened Common
  import opened LayoutTree

  /** The two messages `_process_slot` prints. They are returned beside the
      containers and never influence them. */
  datatype Diagnostic =
    | VerySmallSlot(id: string, w: int, h: int)
    | HeroTooNarrow(id: string, w: int)

  const MinRecommendedSize: int := 400
  const MinHeroWidth: int := 1400

  /** The two areas of a split: a horizontal split divides the width, any
      other direction the height. */
  function SplitAreas(horizontal: bool, ratio: real, gap: int, area: Rect): (Rect, Rect) {
    if horizontal then
      var w1 := Trunc((area.w - gap) as real * ratio);
      (Rect(area.x, area.y, w1, area.h), Rect(area.x + w1 + gap, area.y, area.w - w1 - gap, area.h))
    else
      var h1 := Trunc((area.h - gap) as real * ratio);
      (Rect(area.x, area.y, area.w, h1), Rect(area.x, area.y + h1 + gap, area.w, area.h - h1 - gap))
  }

  /** The first part takes `int((length - gap) * ratio)` of the divided side;
      the two parts and the gap tile the parent exactly, the second part
      starting right after the gap; the other side is unchanged. */
  lemma SplitTiling(horizontal: bool, ratio: real, gap: int, area: Rect)
    ensures var (a1, a2) := SplitAreas(horizontal, ratio, gap, area);
      horizontal ==>
        a1.w == Trunc((area.w - gap) as real * ratio)
        && a1.x == area.x && a2.x == area.x + a1.w + gap
        && a1.w + gap + a2.w == area.w
        && a1.y == a2.y == area.y && a1.h == a2.h == area.h
    ensures var (a1, a2) := SplitAreas(horizontal, ratio, gap, area);
      !horizontal ==>
        a1.h == Trunc((area.h - gap) as real * ratio)
        && a1.y == area.y && a2.y == area.y + a1.h + gap
        && a1.h + gap + a2.h == area.h
        && a1.x == a2.x == area.x && a1.w == a2.w == area.w
  {
  }

  /** With a ratio in [0, 1] and a gap no larger than the divided side,
      neither part of a split has a negative size. */
  lemma SplitPartsNonNegative(horizontal: bool, ratio: real, gap: int, area: Rect)
    requires 0.0 <= ratio <= 1.0 && 0 <= gap
    requires horizontal ==> gap <= area.w
    requires !horizontal ==> gap <= area.h
    ensures var (a1, a2) := SplitAreas(horizontal, ratio, gap, area);
      horizontal ==> 0 <= a1.w && 0 <= a2.w
    ensures var (a1, a2) := SplitAreas(horizontal, ratio, gap, area);
      !horizontal ==> 0 <= a1.h && 0 <= a2.h
  {
    var len := if horizontal then area.w else area.h;
    ScaledPart(len - gap, ratio);
  }

  lemma ScaledPart(d: int, ratio: real)
    requires 0 <= d && 0.0 <= ratio <= 1.0
    ensures 0 <= Trunc(d as real * ratio) <= d
  {
    MulNonneg(d as real, ratio);
    MulMonotone(d as real, ratio, 1.0);
    TruncBounds(d as real * ratio);
  }

  /** The length of one of `n` equal cells along a side of length `len`, with
      a gap between neighbours, before truncation. */
  function Stride(len: int, n: int, gap: int): real
    requires n >= 1
  {
    (len - gap * (n - 1)) as real / n as real
  }

  /** The width of a grid cell, before truncation. */
  function CellWidth(area: Rect, cols: int, gap: int): real
    requires cols >= 1
  {
    Stride(area.w, cols, gap)
  }

  /** The height of a grid cell, before truncation. */
  function CellHeight(area: Rect, rows: int, gap: int): real
    requires rows >= 1
  {
    Stride(area.h, rows, gap)
  }

  /** The truncated start of cell `c` on an axis starting at `x`, cells `cw`
      wide with `gap` between them. */
  function AxisPos(x: int, c: int, cw: real, gap: int): int {
    Trunc(x as real + c as real * (cw + gap as real))
  }

  /** The area of the grid cell in column `c` and row `r`. */
  function CellAt(area: Rect, cols: int, rows: int, gap: int, c: int, r: int): Rect
    requires cols >= 1 && rows >= 1
  {
    Rect(AxisPos(area.x, c, CellWidth(area, cols, gap), gap),
         AxisPos(area.y, r, CellHeight(area, rows, gap), gap),
         Trunc(CellWidth(area, cols, gap)), Trunc(CellHeight(area, rows, gap)))
  }

  /** The area of item `i` of a grid: row `i / cols`, column `i % cols`. */
  function GridCell(area: Rect, cols: int, rows: int, gap: int, i: nat): Rect
    requires cols >= 1 && rows >= 1
  {
    CellAt(area, cols, rows, gap, i % cols, i / cols)
  }

  /** What a slot with the given id and rotation contributes in `area`. */
  function EmitSlot(id: Option<string>, rotation: Option<int>, area: Rect): seq<Container> {
    if Truthy(id) then [Container(id.value, area.x, area.y, area.w, area.h, rotation.GetOr(0))]
    else []
  }

  /** What `_process_slot` prints for a slot with the given id in `area`. */
  function SlotNotes(id: Option<string>, area: Rect): seq<Diagnostic> {
    if !Truthy(id) then []
    else
      (if area.w < MinRecommendedSize || area.h < MinRecommendedSize
       then [VerySmallSlot(id.value, area.w, area.h)] else [])
      + (if Contains(Lower(id.value), "hero") && area.w < MinHeroWidth
         then [HeroTooNarrow(id.value, area.w)] else [])
  }

  /** The containers of the first `n` items of a grid. */
  function GridEmit(items: seq<string>, area: Rect, cols: int, gap: int, n: nat): seq<Container>
    requires cols >= 1 && n <= |items|
    decreases n
  {
    if n == 0 then []
    else
      GridEmit(items, area, cols, gap, n - 1)
      + EmitSlot(Some(items[n - 1]), None, GridCell(area, cols, CeilDiv(|items|, cols), gap, n - 1))
  }

  /** The diagnostics of the first `n` items of a grid. */
  function GridNotes(items: seq<string>, area: Rect, cols: int, gap: int, n: nat): seq<Diagnostic>
    requires cols >= 1 && n <= |items|
    decreases n
  {
    if n == 0 then []
    else
      GridNotes(items, area, cols, gap, n - 1)
      + SlotNotes(Some(items[n - 1]), GridCell(area, cols, CeilDiv(|items|, cols), gap, n - 1))
  }

  /** The containers the solver appends for `node` walked over `area`. */
  function Emit(node: Node, area: Rect): seq<Container>
    requires SolverReady(node)
    decreases node
  {
    match node
    case Split(d, r, g, f, s) =>
      var (a1, a2) := SplitAreas(IsHorizontal(d), SplitRatio(r), SplitGap(g), area);
      Emit(f.value, a1) + Emit(s.value, a2)
    case Grid(c, g, items) =>
      if items == [] then [] else GridEmit(items, area, GridColumns(c), GridGap(g), |items|)
    case Slot(id, rot) => EmitSlot(id, rot, area)
    case _ => []
  }

  /** The diagnostics the solver prints for `node` walked over `area`. */
  function Notes(node: Node, area: Rect): seq<Diagnostic>
    requires SolverReady(node)
    decreases node
  {
    match node
    case Split(d, r, g, f, s) =>
      var (a1, a2) := SplitAreas(IsHorizontal(d), SplitRatio(r), SplitGap(g), area);
      Notes(f.value, a1) + Notes(s.value, a2)
    case Grid(c, g, items) =>
      if items == [] then [] else GridNotes(items, area, GridColumns(c), GridGap(g), |items|)
    case Slot(id, _) => SlotNotes(id, area)
    case _ => []
  }

  function Ids(cs: seq<Container>): (r: seq<string>)
    ensures |r| == |cs|
    ensures forall k :: 0 <= k < |cs| ==> r[k] == cs[k].id
  {
    seq(|cs|, k requires 0 <= k < |cs| => cs[k].id)
  }

  class LayoutSolver {
    const width: int
    const height: int
    const margin: int
    const safeArea: Rect

    /** The canvas defaults to 4961 x 3508 pixels (A3 at 300 dpi) with a
        177-pixel margin; the root area is the canvas inset by the margin on
        all four sides. */
    constructor(width: Option<int>, height: Option<int>, margin: Option<int>)
      ensures this.width == width.GetOr(4961)
      ensures this.height == height.GetOr(3508)
      ensures this.margin == margin.GetOr(177)
      ensures safeArea == Rect(this.margin, this.margin,
                               this.width - 2 * this.margin, this.height - 2 * this.margin)
    {
      this.width := width.GetOr(4961);
      this.height := height.GetOr(3508);
      this.margin := margin.GetOr(177);
      var m := margin.GetOr(177);
      safeArea := Rect(m, m, width.GetOr(4961) - 2 * m, height.GetOr(3508) - 2 * m);
    }

    /** `solve`: the containers of the whole tree, walked over the safe area,
        together with the diagnostics printed on the way. */
    method Solve(tree: Node) returns (containers: seq<Container>, notes: seq<Diagnostic>)
      requires SolverReady(tree)
      ensures containers == Emit(tree, safeArea)
      ensures notes == Notes(tree, safeArea)
    {
      containers, notes := ProcessNode(tree, safeArea, [], []);
    }

    /** `_process_node`: dispatch on the node type; "empty" and unrecognised
        types append nothing. */
    method ProcessNode(node: Node, area: Rect, containers: seq<Container>, notes: seq<Diagnostic>)
      returns (out: seq<Container>, outNotes: seq<Diagnostic>)
      requires SolverReady(node)
      ensures out == containers + Emit(node, area)
      ensures outNotes == notes + Notes(node, area)
      decreases node, 1
    {
      match node
      case Split(_, _, _, _, _) =>
        out, outNotes := ProcessSplit(node, area, containers, notes);
      case Grid(_, _, _) =>
        out, outNotes := ProcessGrid(node, area, containers, notes);
      case Slot(id, rot) =>
        out, outNotes := ProcessSlot(id, rot, area, containers, notes);
      case _ =>
        out, outNotes := containers, notes;
    }

    /** `_process_split`: the first child over the first part, then the second. */
    method ProcessSplit(node: Node, area: Rect, containers: seq<Container>, notes: seq<Diagnostic>)
      returns (out: seq<Container>, outNotes: seq<Diagnostic>)
      requires node.Split? && SolverReady(node)
      ensures out == containers + Emit(node, area)
      ensures outNotes == notes + Notes(node, area)
      decreases node, 0
    {
      var parts := SplitAreas(IsHorizontal(node.direction), SplitRatio(node.ratio), SplitGap(node.gap), area);
      SplitEmits(node, area, parts);
      var first, second := node.first.value, node.second.value;
      var mid, midNotes := ProcessNode(first, parts.0, containers, notes);
      out, outNotes := ProcessNode(second, parts.1, mid, midNotes);
      AppendTwice(containers, mid, out, Emit(first, parts.0), Emit(second, parts.1));
      AppendTwice(notes, midNotes, outNotes, Notes(first, parts.0), Notes(second, parts.1));
    }

    /** `_process_grid`: one slot per item, row-major, all cells the same size. */
    method ProcessGrid(node: Node, area: Rect, containers: seq<Container>, notes: seq<Diagnostic>)
      returns (out: seq<Container>, outNotes: seq<Diagnostic>)
      requires node.Grid? && SolverReady(node)
      ensures out == containers + Emit(node, area)
      ensures outNotes == notes + Notes(node, area)
    {
      var items := node.items;
      if items == [] {
        return containers, notes;
      }
      var cols := GridColumns(node.columns);
      var gap := GridGap(node.gap);
      var rows := CeilDiv(|items|, cols);
      CeilDivPositive(|items|, cols);
      out, outNotes := ProcessItems(items, area, cols, rows, gap, containers, notes);
    }

    /** The `for i, item in enumerate(items)` loop of `_process_grid`. */
    method ProcessItems(items: seq<string>, area: Rect, cols: int, rows: int, gap: int,
                        containers: seq<Container>, notes: seq<Diagnostic>)
      returns (out: seq<Container>, outNotes: seq<Diagnostic>)
      requires cols >= 1 && rows == CeilDiv(|items|, cols) && rows >= 1
      ensures out == containers + GridEmit(items, area, cols, gap, |items|)
      ensures outNotes == notes + GridNotes(items, area, cols, gap, |items|)
    {
      out, outNotes := containers, notes;
      for i := 0 to |items|
        invariant out == containers + GridEmit(items, area, cols, gap, i)
        invariant outNotes == notes + GridNotes(items, area, cols, gap, i)
      {
        var cell := GridCell(area, cols, rows, gap, i);
        out, outNotes := ProcessSlot(Some(items[i]), None, cell, out, outNotes);
        GridStep(items, area, cols, gap, i, containers, notes, out, outNotes);
      }
    }

    /** `_process_slot`: a slot with a missing or empty id appends nothing;
        otherwise one container covering the whole area, rotation defaulting
        to 0. The two size checks only print. */
    method ProcessSlot(id: Option<string>, rotation: Option<int>, area: Rect,
                       containers: seq<Container>, notes: seq<Diagnostic>)
      returns (out: seq<Container>, outNotes: seq<Diagnostic>)
      ensures out == containers + EmitSlot(id, rotation, area)
      ensures outNotes == notes + SlotNotes(id, area)
    {
      if id.None? || id.value == "" {
        return containers, notes;
      }
      var itemId := id.value;
      outNotes := notes;
      if area.w < MinRecommendedSize || area.h < MinRecommendedSize {
        outNotes := outNotes + [VerySmallSlot(itemId, area.w, area.h)];
      }
      if Contains(Lower(itemId), "hero") {
        if area.w < MinHeroWidth {
          outNotes := outNotes + [HeroTooNarrow(itemId, area.w)];
        }
      }
      var container := Container(itemId, area.x, area.y, area.w, area.h, rotation.GetOr(0));
      out := containers + [container];
    }
  }

  /** Appending item `i`'s slot to the containers and notes of the first `i`
      items gives those of the first `i + 1`. */
  lemma GridStep(items: seq<string>, area: Rect, cols: int, gap: int, i: nat,
                 containers: seq<Container>, notes: seq<Diagnostic>, out: seq<Container>, outNotes: seq<Diagnostic>)
    requires cols >= 1 && i < |items|
    requires var cell := GridCell(area, cols, CeilDiv(|items|, cols), gap, i);
      out == containers + GridEmit(items, area, cols, gap, i) + EmitSlot(Some(items[i]), None, cell)
      && outNotes == notes + GridNotes(items, area, cols, gap, i) + SlotNotes(Some(items[i]), cell)
    ensures out == containers + GridEmit(items, area, cols, gap, i + 1)
    ensures outNotes == notes + GridNotes(items, area, cols, gap, i + 1)
  {
  }

  /** Appending `e1` and then `e2` appends `e1 + e2`. */
  lemma AppendTwice<T>(a: seq<T>, b: seq<T>, c: seq<T>, e1: seq<T>, e2: seq<T>)
    requires b == a + e1 && c == b + e2
    ensures c == a + (e1 + e2)
  {
  }

  /** A split emits its first child over the first part, then its second
      over the second part. */
  lemma SplitEmits(node: Node, area: Rect, parts: (Rect, Rect))
    requires node.Split? && SolverReady(node)
    requires parts == SplitAreas(IsHorizontal(node.direction), SplitRatio(node.ratio), SplitGap(node.gap), area)
    ensures node.first.Some? && SolverReady(node.first.value)
    ensures node.second.Some? && SolverReady(node.second.value)
    ensures Emit(node, area) == Emit(node.first.value, parts.0) + Emit(node.second.value, parts.1)
    ensures Notes(node, area) == Notes(node.first.value, parts.0) + Notes(node.second.value, parts.1)
  {
  }

  /** The walk emits exactly the truthy slot ids that `_extract_all_slots`
      lists, in the same depth-first order; in particular the number of
      containers is the number of slots with an id plus the number of
      non-empty grid items. */
  lemma {:induction false} EmitIds(node: Node, area: Rect)
    requires SolverReady(node)
    ensures Ids(Emit(node, area)) == TruthyIds(Slots(Some(node)))
    decreases node
  {
    match node
    case Split(d, r, g, f, s) =>
      var parts := SplitAreas(IsHorizontal(d), SplitRatio(r), SplitGap(g), area);
      EmitIds(f.value, parts.0);
      EmitIds(s.value, parts.1);
      TruthyIdsAppend(Slots(f), Slots(s));
      IdsAppend(Emit(f.value, parts.0), Emit(s.value, parts.1));
    case Grid(c, g, items) =>
      if items != [] {
        GridEmitIds(items, area, GridColumns(c), GridGap(g), |items|);
        assert Lift(items)[..|items|] == Lift(items);
      }
    case Slot(id, rot) =>
    case _ =>
  }

  lemma {:induction false} GridEmitIds(items: seq<string>, area: Rect, cols: int, gap: int, n: nat)
    requires cols >= 1 && n <= |items|
    ensures Ids(GridEmit(items, area, cols, gap, n)) == TruthyIds(Lift(items)[..n])
    decreases n
  {
    if n > 0 {
      GridEmitIds(items, area, cols, gap, n - 1);
      CeilDivPositive(|items|, cols);
      var cell := GridCell(area, cols, CeilDiv(|items|, cols), gap, n - 1);
      var lifted := Lift(items);
      var prev, slot := GridEmit(items, area, cols, gap, n - 1), EmitSlot(Some(items[n - 1]), None, cell);
      assert GridEmit(items, area, cols, gap, n) == prev + slot;
      assert lifted[n - 1] == Some(items[n - 1]);
      assert lifted[..n] == lifted[..n - 1] + [lifted[n - 1]];
      TruthyIdsAppend(lifted[..n - 1], [Some(items[n - 1])]);
      IdsAppend(prev, slot);
      SlotIds(Some(items[n - 1]), None, cell);
    }
  }

  /** A slot emits its id exactly when the id is truthy. */
  lemma SlotIds(id: Option<string>, rotation: Option<int>, area: Rect)
    ensures Ids(EmitSlot(id, rotation, area)) == TruthyIds([id])
  {
    assert [id][1..] == [];
  }

  lemma IdsAppend(a: seq<Container>, b: seq<Container>)
    ensures Ids(a + b) == Ids(a) + Ids(b)
  {
  }

  /** Every container a grid emits has the same truncated cell size, and the
      rotation of every one of them is 0. */
  lemma {:induction false} GridCellsUniform(items: seq<string>, area: Rect, cols: int, gap: int, n: nat)
    requires cols >= 1 && n <= |items|
    ensures var rows := CeilDiv(|items|, cols);
      forall c | c in GridEmit(items, area, cols, gap, n) ::
        c.w == Trunc(CellWidth(area, cols, gap)) && c.h == Trunc(CellHeight(area, rows, gap))
        && c.rotationDeg == 0
    decreases n
  {
    if n > 0 {
      GridCellsUniform(items, area, cols, gap, n - 1);
    }
  }

  /** When no item of a grid is the empty string, item `i` fills the cell in
      row `i / cols`, column `i % cols`. */
  lemma {:induction false} GridPlacement(items: seq<string>, area: Rect, cols: int, gap: int, n: nat)
    requires cols >= 1 && n <= |items|
    requires forall k :: 0 <= k < |items| ==> items[k] != ""
    ensures var out := GridEmit(items, area, cols, gap, n);
      |out| == n
      && forall i :: 0 <= i < n ==>
           var cell := GridCell(area, cols, CeilDiv(|items|, cols), gap, i);
           out[i] == Container(items[i], cell.x, cell.y, cell.w, cell.h, 0)
    decreases n
  {
    if n > 0 {
      GridPlacement(items, area, cols, gap, n - 1);
      var prev := GridEmit(items, area, cols, gap, n - 1);
      var cell := GridCell(area, cols, CeilDiv(|items|, cols), gap, n - 1);
      assert GridEmit(items, area, cols, gap, n)
          == prev + [Container(items[n - 1], cell.x, cell.y, cell.w, cell.h, 0)];
    }
  }

  /** With a non-negative gap and room for the gaps, every cell of a grid lies
      inside the grid's area. */
  lemma GridCellInside(area: Rect, cols: int, rows: int, gap: int, i: nat)
    requires cols >= 1 && rows >= 1 && i < cols * rows
    requires 0 <= gap && 0 <= area.x && 0 <= area.y
    requires gap * (cols - 1) <= area.w && gap * (rows - 1) <= area.h
    ensures var cell := GridCell(area, cols, rows, gap, i);
      area.x <= cell.x && cell.x + cell.w <= area.x + area.w
      && area.y <= cell.y && cell.y + cell.h <= area.y + area.h
  {
    var c, r := i % cols, i / cols;
    RowBound(i, cols, rows);
    CellInsideX(area, cols, rows, gap, c, r);
    CellInsideY(area, cols, rows, gap, c, r);
  }

  lemma CellInsideX(area: Rect, cols: int, rows: int, gap: int, c: int, r: int)
    requires 0 <= c < cols && 1 <= rows
    requires 0 <= gap && 0 <= area.x && gap * (cols - 1) <= area.w
    ensures var cell := CellAt(area, cols, rows, gap, c, r);
      area.x <= cell.x && cell.x + cell.w <= area.x + area.w
  {
    PlaceOnAxis(area.x, area.w, c, cols, gap);
  }

  lemma CellInsideY(area: Rect, cols: int, rows: int, gap: int, c: int, r: int)
    requires 1 <= cols && 0 <= r < rows
    requires 0 <= gap && 0 <= area.y && gap * (rows - 1) <= area.h
    ensures var cell := CellAt(area, cols, rows, gap, c, r);
      area.y <= cell.y && cell.y + cell.h <= area.y + area.h
  {
    PlaceOnAxis(area.y, area.h, r, rows, gap);
  }

  lemma RowBound(i: nat, cols: int, rows: int)
    requires cols >= 1 && i < cols * rows
    ensures 0 <= i % cols < cols && 0 <= i / cols < rows
  {
    var r := i / cols;
    assert r * cols <= i;
  }

  /** Cell `c` of `n` equal cells that tile an axis of length `len` with
      their gaps lies inside it after truncation. */
  lemma PlaceOnAxis(x: int, len: int, c: int, n: int, gap: int)
    requires 0 <= c < n && 0 <= gap && 0 <= x && gap * (n - 1) <= len
    ensures x <= AxisPos(x, c, Stride(len, n, gap), gap)
    ensures AxisPos(x, c, Stride(len, n, gap), gap) + Trunc(Stride(len, n, gap)) <= x + len
  {
    StrideTiles(len, n, gap);
    AxisFits(x, len, c, n, gap, Stride(len, n, gap));
  }

  /** Cells of any width `cw` that tile an axis of length `len` with their
      gaps still fit in it after truncation. */
  lemma AxisFits(x: int, len: int, c: int, n: int, gap: int, cw: real)
    requires 0 <= c < n && 0 <= gap && 0 <= x && 0.0 <= cw
    requires (n - 1) as real * (cw + gap as real) + cw == len as real
    ensures x <= AxisPos(x, c, cw, gap)
    ensures AxisPos(x, c, cw, gap) + Trunc(cw) <= x + len
  {
    OffsetFits(c, n, cw, gap as real, len);
    TruncPlacement(x, c as real * (cw + gap as real), cw, len);
  }

  /** Cell `c` of `n` equal cells with their gaps ends within the axis. */
  lemma OffsetFits(c: int, n: int, cw: real, g: real, len: int)
    requires 0 <= c < n && 0.0 <= cw && 0.0 <= g
    requires (n - 1) as real * (cw + g) + cw == len as real
    ensures 0.0 <= c as real * (cw + g) && c as real * (cw + g) + cw <= len as real
  {
    ScaleBetween(c, n - 1, cw + g);
  }

  /** A non-negative offset and extent that fit in `len` still fit after
      both are truncated. */
  lemma TruncPlacement(x: int, off: real, cw: real, len: int)
    requires 0 <= x && 0.0 <= off && 0.0 <= cw && off + cw <= len as real
    ensures x <= Trunc(x as real + off)
    ensures Trunc(x as real + off) + Trunc(cw) <= x + len
  {
    TruncBounds(x as real + off);
    TruncBounds(cw);
  }

  /** `n` strides with the `n - 1` gaps between them fill the axis. */
  lemma StrideTiles(len: int, n: int, gap: int)
    requires n >= 1 && 0 <= gap && gap * (n - 1) <= len
    ensures 0.0 <= Stride(len, n, gap)
    ensures (n - 1) as real * (Stride(len, n, gap) + gap as real) + Stride(len, n, gap) == len as real
  {
    var cw := Stride(len, n, gap);
    var rest := (len - gap * (n - 1)) as real;
    assert cw * n as real == rest;
    assert (n - 1) as real * (cw + gap as real) + cw == cw * n as real + (gap * (n - 1)) as real;
  }

  lemma ScaleBetween(c: int, m: int, step: real)
    requires 0 <= c <= m && 0.0 <= step
    ensures 0.0 <= c as real * step <= m as real * step
  {
    MulNonneg(step, c as real);
    MulMonotone(step, c as real, m as real);
  }

  /** An "empty" node, a node of unrecognised type, the empty object, an
      empty grid and a slot without an id emit nothing. */
  lemma Silent(area: Rect, rotation: Option<int>, columns: Option<int>, gap: Option<int>)
    ensures Emit(Empty, area) == [] && Emit(Unrecognised, area) == [] && Emit(Blank, area) == []
    ensures Emit(Grid(columns, gap, []), area) == []
    ensures Emit(Slot(None, rotation), area) == [] && Emit(Slot(Some(""), rotation), area) == []
  {
  }

  /** A slot with an id emits one container that covers the area exactly. */
  lemma SlotCoversArea(id: string, rotation: Option<int>, area: Rect)
    requires id != ""
    ensures Emit(Slot(Some(id), rotation), area)
         == [Container(id, area.x, area.y, area.w, area.h, rotation.GetOr(0))]
  {
  }

  /** On the default canvas, a default split of a hero and a bag gives the hero
      the left 2278 pixels of the 4607-pixel safe area. */
  lemma DefaultSplitExample()
    ensures Emit(Split(None, None, None, Some(Slot(Some("hero_left"), None)), Some(Slot(Some("bag"), None))),
                 Rect(177, 177, 4961 - 2 * 177, 3508 - 2 * 177))
         == [Container("hero_left", 177, 177, 2278, 3154, 0), Container("bag", 2505, 177, 2279, 3154, 0)]
  {
    assert Trunc((4607 - 50) as real * 0.5) == 2278;
  }
}
