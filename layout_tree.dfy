/** The layout tree shared by the solver, the validator and the fallback
    strategy, and the container the solver produces.

    A tree node is a JSON object with a "type" tag. The tag selects the
    constructor: "split", "grid", "empty", "slot" (also chosen when the tag is
    absent), or any other string. `Blank` is the empty object `{}`, which
    Python treats as false. A key that is absent or holds `null` is `None`. */
module LayoutTree {
  import opened Common

  datatype Node =
    | Split(direction: Option<string>, ratio: Option<real>, gap: Option<int>,
            first: Option<Node>, second: Option<Node>)
    | Grid(columns: Option<int>, gap: Option<int>, items: seq<string>)
    | Slot(itemId: Option<string>, rotation: Option<int>)
    | Empty
    | Unrecognised
    | Blank

  /** A pixel rectangle: the "area" dict `{x, y, w, h}`. */
  datatype Rect = Rect(x: int, y: int, w: int, h: int)

  /** One entry of the solver's output list. */
  datatype Container = Container(id: string, x: int, y: int, w: int, h: int, rotationDeg: int)

  /** The defaults of a split: horizontal, ratio 0.5, gap 50. */
  predicate IsHorizontal(direction: Option<string>) {
    direction.GetOr("horizontal") == "horizontal"
  }

  function SplitRatio(ratio: Option<real>): real { ratio.GetOr(0.5) }

  function SplitGap(gap: Option<int>): int { gap.GetOr(50) }

  /** The defaults of a grid: two columns, gap 50. */
  function GridColumns(columns: Option<int>): int { columns.GetOr(2) }

  function GridGap(gap: Option<int>): int { gap.GetOr(50) }

  /** A slot that contributes a container: its id is present and non-empty. */
  predicate Truthy(id: Option<string>) {
    id.Some? && id.value != ""
  }

  /** Python's `math.ceil(n / d)` for a positive divisor. */
  function CeilDiv(n: int, d: int): int
    requires d > 0
  {
    (n + d - 1) / d
  }

  /** `CeilDiv` is the least multiple count that covers `n`. */
  lemma CeilDivBounds(n: int, d: int)
    requires d > 0
    ensures (CeilDiv(n, d) - 1) * d < n <= CeilDiv(n, d) * d
    ensures n > 0 ==> CeilDiv(n, d) >= 1
  {
  }

  lemma CeilDivPositive(n: int, d: int)
    requires n > 0 && d > 0
    ensures CeilDiv(n, d) >= 1
  {
    CeilDivBounds(n, d);
  }

  /** A grid that has items divides by its column count, so the count must be positive. */
  predicate GridReady(columns: Option<int>, items: seq<string>) {
    items != [] ==> GridColumns(columns) >= 1
  }

  /** A tree the solver can walk: every split has both children (the solver
      reads the child's "type" without a check) and every grid with items has a
      positive column count. */
  predicate SolverReady(n: Node) {
    match n
    case Split(_, _, _, f, s) =>
      f.Some? && s.Some? && SolverReady(f.value) && SolverReady(s.value)
    case Grid(c, _, items) => GridReady(c, items)
    case _ => true
  }

  /** Every grid with items that is reachable through splits has a positive
      column count; missing children are tolerated, as the validator
      tolerates them. */
  predicate PositiveGrids(n: Option<Node>) {
    match n
    case None => true
    case Some(Split(_, _, _, f, s)) => PositiveGrids(f) && PositiveGrids(s)
    case Some(Grid(c, _, items)) => GridReady(c, items)
    case Some(_) => true
  }

  /** Every tree the solver can walk has positive grids in the validator's sense. */
  lemma {:induction false} SolverReadyPositiveGrids(n: Node)
    requires SolverReady(n)
    ensures PositiveGrids(Some(n))
  {
    match n
    case Split(_, _, _, f, s) =>
      SolverReadyPositiveGrids(f.value);
      SolverReadyPositiveGrids(s.value);
    case _ =>
  }

  function Lift(items: seq<string>): (r: seq<Option<string>>)
    ensures |r| == |items|
    ensures forall i :: 0 <= i < |items| ==> r[i] == Some(items[i])
  {
    seq(|items|, i requires 0 <= i < |items| => Some(items[i]))
  }

  /** `_extract_all_slots`: the item ids of the tree, depth first, first child
      before second, grid items in list order. A slot without an id contributes
      `None`; the empty object, a missing child, "empty" and unrecognised nodes
      contribute nothing. */
  function Slots(n: Option<Node>): seq<Option<string>> {
    match n
    case None => []
    case Some(Slot(id, _)) => [id]
    case Some(Split(_, _, _, f, s)) => Slots(f) + Slots(s)
    case Some(Grid(_, _, items)) => Lift(items)
    case Some(_) => []
  }

  /** `_extract_all_grids`: the item lists of the grids reachable through splits. */
  function Grids(n: Option<Node>): seq<seq<string>> {
    match n
    case Some(Grid(_, _, items)) => [items]
    case Some(Split(_, _, _, f, s)) => Grids(f) + Grids(s)
    case _ => []
  }

  /** The ids of the truthy entries of a list of slot ids, in order. */
  function TruthyIds(ids: seq<Option<string>>): (r: seq<string>)
    ensures forall k :: 0 <= k < |r| ==> r[k] != ""
    ensures forall k :: 0 <= k < |r| ==> Some(r[k]) in ids
    ensures |r| <= |ids|
  {
    if ids == [] then []
    else (if Truthy(ids[0]) then [ids[0].value] else []) + TruthyIds(ids[1..])
  }

  lemma {:induction false} TruthyIdsAppend(a: seq<Option<string>>, b: seq<Option<string>>)
    ensures TruthyIds(a + b) == TruthyIds(a) + TruthyIds(b)
    decreases |a|
  {
    if a == [] {
      assert a + b == b;
    } else {
      assert (a + b)[1..] == a[1..] + b;
      TruthyIdsAppend(a[1..], b);
    }
  }

  /** Every truthy id of the list survives the filter. */
  lemma {:induction false} TruthyIdsComplete(ids: seq<Option<string>>, k: int)
    requires 0 <= k < |ids| && Truthy(ids[k])
    ensures ids[k].value in TruthyIds(ids)
    decreases |ids|
  {
    if k > 0 {
      TruthyIdsComplete(ids[1..], k - 1);
    }
  }

  /** A list without empty or missing ids is left as it is. */
  lemma {:induction false} TruthyIdsAll(ids: seq<Option<string>>)
    requires forall k :: 0 <= k < |ids| ==> Truthy(ids[k])
    ensures |TruthyIds(ids)| == |ids|
    ensures forall k :: 0 <= k < |ids| ==> Some(TruthyIds(ids)[k]) == ids[k]
    decreases |ids|
  {
    if ids != [] {
      TruthyIdsAll(ids[1..]);
    }
  }
}
