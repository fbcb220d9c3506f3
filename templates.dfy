/** The template catalogue (engine/templates.py): five procedural archetypes
    that each either decline with `None` or place every inventory item once,
    a greedy best-fit matcher from inventory ids to the slots of fixed legacy
    templates, and the selection of every template that fits an inventory.

    Each Python function that fills a list in a loop is a method proved to
    return the value of a specification function; the properties the code
    promises are lemmas about those functions. */
module Templates {
  import opened Common
  import opened LayoutTree
  import opened Boxes
  import Sorting

  /** A cell of a generated layout, before `make_container` truncates it. */
  datatype Cell = Cell(x: real, y: real, w: real, h: real)

  function Place(id: string, c: Cell): Box {
    MakeContainer(id, c.x, c.y, c.w, c.h)
  }

  /** The length of each of `n` equal parts of `len` with a gap of `gap`
      between neighbours: `(len - gap * (n - 1)) / n`. */
  function Band(len: real, gap: real, n: int): real
    requires n > 0
  {
    (len - gap * (n - 1) as real) / n as real
  }

  /** `n` equal parts and the `n - 1` gaps between them tile the length
      exactly: the far edge of the last part is the far edge of the whole. */
  lemma BandTiles(len: real, gap: real, n: int)
    requires n > 0
    ensures (n - 1) as real * (Band(len, gap, n) + gap) + Band(len, gap, n) == len
  {
    var b := Band(len, gap, n);
    var m := n as real;
    assert b * m == len - gap * (m - 1.0);
    assert (m - 1.0) * (b + gap) + b == m * b + (m - 1.0) * gap;
  }

  /** `item_aspects.get(id, 1.0)`. */
  function AspectOf(aspects: map<string, real>, id: string): real {
    if id in aspects then aspects[id] else 1.0
  }

  // ---------------------------------------------------------------------------
  // The sized grid shared by the two hero-beside-grid archetypes

  /** The hero column is `int(0.45 w)` wide and the gutter `int(0.05 w)`. */
  function HeroColumn(safe: Rect): int { Trunc(safe.w as real * 0.45) }

  function Gutter(safe: Rect): int { Trunc(safe.w as real * 0.05) }

  /** A support needs a cell; two accessories share one. */
  function SlotsNeeded(supports: seq<string>, accessories: seq<string>): nat {
    |supports| + CeilDiv(|accessories|, 2)
  }

  /** Cell `k` of a two-column grid filled row by row. */
  function CellOf(x0: real, y0: real, cw: real, ch: real, gap: real, k: nat): Cell {
    Cell(x0 + (k % 2) as real * (cw + gap), y0 + (k / 2) as real * (ch + gap), cw, ch)
  }

  function Cells(x0: real, y0: real, cw: real, ch: real, gap: real, rows: nat): seq<Cell> {
    seq(2 * rows, k requires 0 <= k < 2 * rows => CellOf(x0, y0, cw, ch, gap, k))
  }

  /** The nested `for r in range(rows): for c in range(cols)` loop that lists
      the cells of the grid: cell `k` lies in row `k / 2` and column `k % 2`. */
  method BuildCells(x0: real, y0: real, cw: real, ch: real, gap: real, rows: nat) returns (cells: seq<Cell>)
    ensures |cells| == 2 * rows
    ensures forall k :: 0 <= k < |cells| ==> cells[k] == CellOf(x0, y0, cw, ch, gap, k)
    ensures cells == Cells(x0, y0, cw, ch, gap, rows)
  {
    cells := [];
    for r := 0 to rows
      invariant |cells| == 2 * r
      invariant forall k :: 0 <= k < |cells| ==> cells[k] == CellOf(x0, y0, cw, ch, gap, k)
    {
      for c := 0 to 2
        invariant |cells| == 2 * r + c
        invariant forall k :: 0 <= k < |cells| ==> cells[k] == CellOf(x0, y0, cw, ch, gap, k)
      {
        CellOfRowColumn(x0, y0, cw, ch, gap, r, c);
        cells := cells + [Cell(x0 + c as real * (cw + gap), y0 + r as real * (ch + gap), cw, ch)];
      }
    }
  }

  /** The cell in row `r`, column `c` is cell `2 * r + c`. */
  lemma CellOfRowColumn(x0: real, y0: real, cw: real, ch: real, gap: real, r: nat, c: nat)
    requires c < 2
    ensures Cell(x0 + c as real * (cw + gap), y0 + r as real * (ch + gap), cw, ch) == CellOf(x0, y0, cw, ch, gap, 2 * r + c)
  {
    var k := 2 * r + c;
    HalvesOf(r, c);
    var col, row := k % 2, k / 2;
    assert col == c && row == r;
    assert CellOf(x0, y0, cw, ch, gap, k) == Cell(x0 + col as real * (cw + gap), y0 + row as real * (ch + gap), cw, ch);
  }

  /** `2 * r + c` with `c < 2` lies in row `r`, column `c` of two columns. */
  lemma HalvesOf(r: nat, c: nat)
    requires c < 2
    ensures (2 * r + c) % 2 == c && (2 * r + c) / 2 == r
  {
  }

  /** The first `n` supports, support `i` in cell `i`. */
  function PlaceSupports(cells: seq<Cell>, supports: seq<string>, n: nat): seq<Box>
    requires n <= |supports| && n <= |cells|
  {
    if n == 0 then []
    else PlaceSupports(cells, supports, n - 1) + [Place(supports[n - 1], cells[n - 1])]
  }

  /** Two accessories stacked in one cell, 20 px apart. */
  function StackPair(top: string, bottom: string, c: Cell): seq<Box> {
    var sh := (c.h - 20.0) / 2.0;
    [MakeContainer(top, c.x, c.y, c.w, sh), MakeContainer(bottom, c.x, c.y + sh + 20.0, c.w, sh)]
  }

  /** The accessories from index `j` on, from cell `c` on: pairs share a cell,
      a last single accessory takes a whole one, and placing stops when the
      cells run out. */
  function PlaceAccessories(cells: seq<Cell>, c: nat, accessories: seq<string>, j: nat): seq<Box>
    decreases |accessories| - j
  {
    if j >= |accessories| || c >= |cells| then []
    else if |accessories| - j >= 2 then
      StackPair(accessories[j], accessories[j + 1], cells[c]) + PlaceAccessories(cells, c + 1, accessories, j + 2)
    else [Place(accessories[j], cells[c])] + PlaceAccessories(cells, c + 1, accessories, j + 1)
  }

  function SizedGrid(cells: seq<Cell>, supports: seq<string>, accessories: seq<string>): seq<Box> {
    var n := Min(|supports|, |cells|);
    PlaceSupports(cells, supports, n) + PlaceAccessories(cells, n, accessories, 0)
  }

  /** The two fill loops: supports first, each in its own cell, then the
      accessories, two to a cell, both loops stopping when the cells run out. */
  method FillSizedGrid(cells: seq<Cell>, supports: seq<string>, accessories: seq<string>) returns (placed: seq<Box>)
    ensures placed == SizedGrid(cells, supports, accessories)
  {
    placed := [];
    var i := 0;
    while i < |supports|
      invariant i <= |supports| && i <= |cells|
      invariant placed == PlaceSupports(cells, supports, i)
    {
      if i >= |cells| { break; }
      placed := placed + [Place(supports[i], cells[i])];
      i := i + 1;
    }
    assert i == Min(|supports|, |cells|);
    ghost var start := i;
    ghost var before := placed;
    var acc := 0;
    while acc < |accessories|
      invariant start <= i
      invariant placed + PlaceAccessories(cells, i, accessories, acc)
             == before + PlaceAccessories(cells, start, accessories, 0)
      decreases |accessories| - acc
    {
      if i >= |cells| { break; }
      var cell := cells[i];
      if |accessories| - acc >= 2 {
        placed := placed + StackPair(accessories[acc], accessories[acc + 1], cell);
        acc := acc + 2;
      } else {
        placed := placed + [Place(accessories[acc], cell)];
        acc := acc + 1;
      }
      i := i + 1;
    }
  }

  lemma {:induction false} PlaceSupportsIds(cells: seq<Cell>, supports: seq<string>, n: nat)
    requires n <= |supports| && n <= |cells|
    ensures BoxIds(PlaceSupports(cells, supports, n)) == Lift(supports[..n])
  {
    if n > 0 {
      PlaceSupportsIds(cells, supports, n - 1);
      BoxIdsAppend(PlaceSupports(cells, supports, n - 1), [Place(supports[n - 1], cells[n - 1])]);
      assert supports[..n] == supports[..n - 1] + [supports[n - 1]];
      LiftAppend(supports[..n - 1], [supports[n - 1]]);
    }
  }

  /** With a cell for every pair and for a last single accessory, every
      accessory from `j` on is placed, in order. */
  lemma {:induction false} PlaceAccessoriesIds(cells: seq<Cell>, c: nat, accessories: seq<string>, j: nat)
    requires j <= |accessories|
    requires c + CeilDiv(|accessories| - j, 2) <= |cells|
    ensures BoxIds(PlaceAccessories(cells, c, accessories, j)) == Lift(accessories[j..])
    decreases |accessories| - j
  {
    if j < |accessories| {
      if |accessories| - j >= 2 {
        var rest := PlaceAccessories(cells, c + 1, accessories, j + 2);
        PlaceAccessoriesIds(cells, c + 1, accessories, j + 2);
        BoxIdsAppend(StackPair(accessories[j], accessories[j + 1], cells[c]), rest);
        assert accessories[j..] == [accessories[j], accessories[j + 1]] + accessories[j + 2..];
        LiftAppend([accessories[j], accessories[j + 1]], accessories[j + 2..]);
      } else {
        assert accessories[j..] == [accessories[j]];
      }
    }
  }

  /** A grid with at least `SlotsNeeded` cells places every support and then
      every accessory exactly once, in list order. */
  lemma SizedGridIds(cells: seq<Cell>, supports: seq<string>, accessories: seq<string>)
    requires SlotsNeeded(supports, accessories) <= |cells|
    ensures BoxIds(SizedGrid(cells, supports, accessories)) == Lift(supports + accessories)
  {
    var n := |supports|;
    PlaceSupportsIds(cells, supports, n);
    PlaceAccessoriesIds(cells, n, accessories, 0);
    assert supports[..n] == supports && accessories[0..] == accessories;
    BoxIdsAppend(PlaceSupports(cells, supports, n), PlaceAccessories(cells, n, accessories, 0));
    LiftAppend(supports, accessories);
  }

  lemma LiftAppend(a: seq<string>, b: seq<string>)
    ensures Lift(a + b) == Lift(a) + Lift(b)
  {
  }

  lemma LiftSplit(s: seq<string>, m: nat)
    requires m <= |s|
    ensures Lift(s) == Lift(s[..m]) + Lift(s[m..])
  {
    assert s == s[..m] + s[m..];
    LiftAppend(s[..m], s[m..]);
  }

  /** The grid has `2 * ceil(slots / 2)` cells, enough for every slot needed. */
  lemma EnoughCells(slots: nat)
    ensures slots <= 2 * CeilDiv(slots, 2)
    ensures slots > 0 ==> CeilDiv(slots, 2) > 0
  {
  }

  /** A cell of a two-column grid lies between the grid's left edge and
      `x0 + 2 cw + gap`. */
  lemma CellWithinColumns(x0: real, y0: real, cw: real, ch: real, gap: real, k: nat)
    requires cw >= 0.0 && gap >= 0.0
    ensures var c := CellOf(x0, y0, cw, ch, gap, k); x0 <= c.x && c.x + c.w <= x0 + 2.0 * cw + gap
  {
    var m := k % 2;
    if m == 0 {
      assert CellOf(x0, y0, cw, ch, gap, k).x == x0;
    } else {
      assert m as real == 1.0;
      assert CellOf(x0, y0, cw, ch, gap, k).x == x0 + cw + gap;
    }
  }

  // ---------------------------------------------------------------------------
  // The five archetypes

  /** `layout_hero_left_grid_right`. */
  function HeroLeftGridRightSpec(safe: Rect, heroes: seq<string>, supports: seq<string>, accessories: seq<string>)
    : Option<seq<Box>>
  {
    if |heroes| != 1 then None
    else
      var heroW := HeroColumn(safe);
      var gap := Gutter(safe);
      var hero := MakeContainer(heroes[0], safe.x as real, safe.y as real, heroW as real, safe.h as real);
      var slots := SlotsNeeded(supports, accessories);
      if slots == 0 then Some([hero])
      else
        var rx := safe.x + heroW + gap;
        var rw := safe.w - heroW - gap;
        var rows := CeilDiv(slots, 2);
        var cells := Cells(rx as real, safe.y as real, Band(rw as real, gap as real, 2),
                           Band(safe.h as real, gap as real, rows), gap as real, rows);
        Some([hero] + SizedGrid(cells, supports, accessories))
  }

  /** `layout_hero_right_grid_left`: the same grid, to the left of a hero
      flush with the right edge. */
  function HeroRightGridLeftSpec(safe: Rect, heroes: seq<string>, supports: seq<string>, accessories: seq<string>)
    : Option<seq<Box>>
  {
    if |heroes| != 1 then None
    else
      var heroW := HeroColumn(safe);
      var gap := Gutter(safe);
      var hx := safe.x + safe.w - heroW;
      var hero := MakeContainer(heroes[0], hx as real, safe.y as real, heroW as real, safe.h as real);
      var slots := SlotsNeeded(supports, accessories);
      if slots == 0 then Some([hero])
      else
        var lw := safe.w - heroW - gap;
        var rows := CeilDiv(slots, 2);
        var cells := Cells(safe.x as real, safe.y as real, Band(lw as real, gap as real, 2),
                           Band(safe.h as real, gap as real, rows), gap as real, rows);
        Some([hero] + SizedGrid(cells, supports, accessories))
  }

  method LayoutHeroLeftGridRight(safe: Rect, heroes: seq<string>, supports: seq<string>, accessories: seq<string>)
    returns (r: Option<seq<Box>>)
    ensures r == HeroLeftGridRightSpec(safe, heroes, supports, accessories)
    ensures r.None? <==> |heroes| != 1
    ensures r.Some? ==> BoxIds(r.value) == Lift(heroes + supports + accessories)
  {
    if |heroes| != 1 {
      return None;
    }
    var heroW := HeroColumn(safe);
    var gap := Gutter(safe);
    var hero := MakeContainer(heroes[0], safe.x as real, safe.y as real, heroW as real, safe.h as real);
    var placed: seq<Box> := [];
    var slots := SlotsNeeded(supports, accessories);
    if slots != 0 {
      var rx := safe.x + heroW + gap;
      var rw := safe.w - heroW - gap;
      var rows := CeilDiv(slots, 2);
      var cells := BuildCells(rx as real, safe.y as real, Band(rw as real, gap as real, 2),
                              Band(safe.h as real, gap as real, rows), gap as real, rows);
      placed := FillSizedGrid(cells, supports, accessories);
      assert Some([hero] + placed) == HeroLeftGridRightSpec(safe, heroes, supports, accessories);
    } else {
      assert [hero] + placed == [hero];
    }
    r := Some([hero] + placed);
    HeroBesideGridIds(safe, heroes, supports, accessories);
  }

  method LayoutHeroRightGridLeft(safe: Rect, heroes: seq<string>, supports: seq<string>, accessories: seq<string>)
    returns (r: Option<seq<Box>>)
    ensures r == HeroRightGridLeftSpec(safe, heroes, supports, accessories)
    ensures r.None? <==> |heroes| != 1
    ensures r.Some? ==> BoxIds(r.value) == Lift(heroes + supports + accessories)
  {
    if |heroes| != 1 {
      return None;
    }
    var heroW := HeroColumn(safe);
    var gap := Gutter(safe);
    var hx := safe.x + safe.w - heroW;
    var hero := MakeContainer(heroes[0], hx as real, safe.y as real, heroW as real, safe.h as real);
    var placed: seq<Box> := [];
    var slots := SlotsNeeded(supports, accessories);
    if slots != 0 {
      var lw := safe.w - heroW - gap;
      var rows := CeilDiv(slots, 2);
      var cells := BuildCells(safe.x as real, safe.y as real, Band(lw as real, gap as real, 2),
                              Band(safe.h as real, gap as real, rows), gap as real, rows);
      placed := FillSizedGrid(cells, supports, accessories);
      assert Some([hero] + placed) == HeroRightGridLeftSpec(safe, heroes, supports, accessories);
    } else {
      assert [hero] + placed == [hero];
    }
    r := Some([hero] + placed);
    HeroBesideGridIds(safe, heroes, supports, accessories);
  }

  /** Since `2 * ceil(slots / 2) >= slots`, both hero-beside-grid archetypes
      place the hero, every support and every accessory exactly once, in
      that order. */
  lemma HeroBesideGridIds(safe: Rect, heroes: seq<string>, supports: seq<string>, accessories: seq<string>)
    ensures var r := HeroLeftGridRightSpec(safe, heroes, supports, accessories);
      r.Some? ==> BoxIds(r.value) == Lift(heroes + supports + accessories)
    ensures var r := HeroRightGridLeftSpec(safe, heroes, supports, accessories);
      r.Some? ==> BoxIds(r.value) == Lift(heroes + supports + accessories)
  {
    HeroLeftGridIds(safe, heroes, supports, accessories);
    HeroRightGridIds(safe, heroes, supports, accessories);
  }

  lemma HeroLeftGridIds(safe: Rect, heroes: seq<string>, supports: seq<string>, accessories: seq<string>)
    ensures var r := HeroLeftGridRightSpec(safe, heroes, supports, accessories);
      r.Some? ==> BoxIds(r.value) == Lift(heroes + supports + accessories)
  {
    if |heroes| == 1 && SlotsNeeded(supports, accessories) != 0 {
      var heroW, gap := HeroColumn(safe), Gutter(safe);
      var slots := SlotsNeeded(supports, accessories);
      var rows := CeilDiv(slots, 2);
      EnoughCells(slots);
      var band, column := Band((safe.w - heroW - gap) as real, gap as real, 2), Band(safe.h as real, gap as real, rows);
      HeroThenGridIds(MakeContainer(heroes[0], safe.x as real, safe.y as real, heroW as real, safe.h as real),
                      Cells((safe.x + heroW + gap) as real, safe.y as real, band, column, gap as real, rows),
                      heroes, supports, accessories);
    } else if |heroes| == 1 {
      assert supports + accessories == [];
    }
  }

  lemma HeroRightGridIds(safe: Rect, heroes: seq<string>, supports: seq<string>, accessories: seq<string>)
    ensures var r := HeroRightGridLeftSpec(safe, heroes, supports, accessories);
      r.Some? ==> BoxIds(r.value) == Lift(heroes + supports + accessories)
  {
    if |heroes| == 1 && SlotsNeeded(supports, accessories) != 0 {
      var heroW, gap := HeroColumn(safe), Gutter(safe);
      var slots := SlotsNeeded(supports, accessories);
      var rows := CeilDiv(slots, 2);
      EnoughCells(slots);
      var band, column := Band((safe.w - heroW - gap) as real, gap as real, 2), Band(safe.h as real, gap as real, rows);
      HeroThenGridIds(MakeContainer(heroes[0], (safe.x + safe.w - heroW) as real, safe.y as real, heroW as real, safe.h as real),
                      Cells(safe.x as real, safe.y as real, band, column, gap as real, rows),
                      heroes, supports, accessories);
    } else if |heroes| == 1 {
      assert supports + accessories == [];
    }
  }

  /** One hero box followed by a sized grid with enough cells lists the hero,
      then every support, then every accessory. */
  lemma HeroThenGridIds(hero: Box, cells: seq<Cell>, heroes: seq<string>, supports: seq<string>, accessories: seq<string>)
    requires |heroes| == 1 && hero.id == Some(heroes[0])
    requires SlotsNeeded(supports, accessories) <= |cells|
    ensures BoxIds([hero] + SizedGrid(cells, supports, accessories)) == Lift(heroes + supports + accessories)
  {
    LiftAppend(heroes, supports + accessories);
    SizedGridIds(cells, supports, accessories);
    BoxIdsAppend([hero], SizedGrid(cells, supports, accessories));
  }

  /** The hero and its gutter never overlap the grid: on a safe area of
      non-negative width every grid cell of `layout_hero_left_grid_right`
      starts at or after `x + hero_w + gap` and ends within the safe area. */
  lemma HeroLeftGridClear(safe: Rect, rows: nat, k: nat)
    requires safe.w >= 0 && rows > 0
    ensures var heroW, gap := HeroColumn(safe), Gutter(safe);
      var c := CellOf((safe.x + heroW + gap) as real, safe.y as real,
                      Band((safe.w - heroW - gap) as real, gap as real, 2),
                      Band(safe.h as real, gap as real, rows), gap as real, k);
      (safe.x + heroW + gap) as real <= c.x && c.x + c.w <= (safe.x + safe.w) as real
  {
    ColumnWidths(safe);
    var heroW, gap := HeroColumn(safe), Gutter(safe);
    CellWithinColumns((safe.x + heroW + gap) as real, safe.y as real,
                      Band((safe.w - heroW - gap) as real, gap as real, 2),
                      Band(safe.h as real, gap as real, rows), gap as real, k);
  }

  /** In `layout_hero_right_grid_left` the hero ends at the right edge of the
      safe area and every grid cell lies between the left edge and one gutter
      before the hero. */
  lemma HeroRightGridClear(safe: Rect, rows: nat, k: nat)
    requires safe.w >= 0 && rows > 0
    ensures var heroW, gap := HeroColumn(safe), Gutter(safe);
      var c := CellOf(safe.x as real, safe.y as real,
                      Band((safe.w - heroW - gap) as real, gap as real, 2),
                      Band(safe.h as real, gap as real, rows), gap as real, k);
      safe.x as real <= c.x && c.x + c.w + gap as real <= (safe.x + safe.w - heroW) as real
    ensures var hero := MakeContainer("", (safe.x + safe.w - HeroColumn(safe)) as real, safe.y as real,
                                      HeroColumn(safe) as real, safe.h as real);
      hero.x.value + hero.w.value == safe.x + safe.w
  {
    ColumnWidths(safe);
    var heroW, gap := HeroColumn(safe), Gutter(safe);
    CellWithinColumns(safe.x as real, safe.y as real,
                      Band((safe.w - heroW - gap) as real, gap as real, 2),
                      Band(safe.h as real, gap as real, rows), gap as real, k);
    TruncOfInt(safe.x + safe.w - heroW);
    TruncOfInt(heroW);
  }

  /** On a non-negative width the hero column, two gutters and the two grid
      columns all have non-negative size. */
  lemma ColumnWidths(safe: Rect)
    requires safe.w >= 0
    ensures 0 <= Gutter(safe) && 0 <= HeroColumn(safe)
    ensures Band((safe.w - HeroColumn(safe) - Gutter(safe)) as real, Gutter(safe) as real, 2) >= 0.0
  {
    TruncBounds(safe.w as real * 0.45);
    TruncBounds(safe.w as real * 0.05);
  }

  /** The band of `layout_hero_top_band_bottom`, item `k` in column `k`. */
  function Row(items: seq<string>, x: real, y: real, cw: real, ch: real, gap: real, n: nat): seq<Box>
    requires n <= |items|
  {
    if n == 0 then []
    else Row(items, x, y, cw, ch, gap, n - 1)
         + [MakeContainer(items[n - 1], x + (n - 1) as real * (cw + gap), y, cw, ch)]
  }

  /** The middle stack of `layout_three_column_balanced`, item `k` in row `k`. */
  function Column(items: seq<string>, x: real, y: real, cw: real, ch: real, gap: real, n: nat): seq<Box>
    requires n <= |items|
  {
    if n == 0 then []
    else Column(items, x, y, cw, ch, gap, n - 1)
         + [MakeContainer(items[n - 1], x, y + (n - 1) as real * (ch + gap), cw, ch)]
  }

  /** The two-column cluster of `layout_quadrant_split`'s fourth quadrant. */
  function Cluster(items: seq<string>, x: real, y: real, cw: real, ch: real, n: nat): seq<Box>
    requires n <= |items|
  {
    if n == 0 then []
    else Cluster(items, x, y, cw, ch, n - 1) + [Place(items[n - 1], CellOf(x, y, cw, ch, 40.0, n - 1))]
  }

  lemma {:induction false} RowIds(items: seq<string>, x: real, y: real, cw: real, ch: real, gap: real, n: nat)
    requires n <= |items|
    ensures |Row(items, x, y, cw, ch, gap, n)| == n
    ensures BoxIds(Row(items, x, y, cw, ch, gap, n)) == Lift(items[..n])
  {
    if n > 0 {
      RowIds(items, x, y, cw, ch, gap, n - 1);
      assert items[..n] == items[..n - 1] + [items[n - 1]];
      LiftAppend(items[..n - 1], [items[n - 1]]);
    }
  }

  /** Every box of `bs` has top `y` and height `h`. */
  predicate InBand(bs: seq<Box>, y: int, h: int) {
    forall k :: 0 <= k < |bs| ==> bs[k].y == Some(y) && bs[k].h == Some(h)
  }

  /** Every box of the band has the band's top and height. */
  lemma {:induction false} RowBand(items: seq<string>, x: real, y: int, cw: real, ch: int, gap: real, n: nat)
    requires n <= |items|
    ensures InBand(Row(items, x, y as real, cw, ch as real, gap, n), y, ch)
  {
    if n > 0 {
      RowBand(items, x, y, cw, ch, gap, n - 1);
      TruncOfInt(y);
      TruncOfInt(ch);
      var prev := Row(items, x, y as real, cw, ch as real, gap, n - 1);
      var last := MakeContainer(items[n - 1], x + (n - 1) as real * (cw + gap), y as real, cw, ch as real);
      assert Row(items, x, y as real, cw, ch as real, gap, n) == prev + [last];
    }
  }

  lemma {:induction false} ColumnIds(items: seq<string>, x: real, y: real, cw: real, ch: real, gap: real, n: nat)
    requires n <= |items|
    ensures BoxIds(Column(items, x, y, cw, ch, gap, n)) == Lift(items[..n])
  {
    if n > 0 {
      ColumnIds(items, x, y, cw, ch, gap, n - 1);
      assert items[..n] == items[..n - 1] + [items[n - 1]];
      LiftAppend(items[..n - 1], [items[n - 1]]);
    }
  }

  lemma {:induction false} ClusterIds(items: seq<string>, x: real, y: real, cw: real, ch: real, n: nat)
    requires n <= |items|
    ensures BoxIds(Cluster(items, x, y, cw, ch, n)) == Lift(items[..n])
  {
    if n > 0 {
      ClusterIds(items, x, y, cw, ch, n - 1);
      assert items[..n] == items[..n - 1] + [items[n - 1]];
      LiftAppend(items[..n - 1], [items[n - 1]]);
    }
  }

  /** `layout_hero_top_band_bottom`. */
  function HeroTopBandBottomSpec(safe: Rect, heroes: seq<string>, supports: seq<string>, accessories: seq<string>,
                                 aspects: map<string, real>): Option<seq<Box>>
  {
    if |heroes| != 1 || AspectOf(aspects, heroes[0]) < 1.0 then None
    else
      var heroH := Trunc(safe.h as real * 0.60);
      var gap := Trunc(safe.h as real * 0.05);
      var hero := MakeContainer(heroes[0], safe.x as real, safe.y as real, safe.w as real, heroH as real);
      var remaining := supports + accessories;
      if remaining == [] then Some([hero])
      else
        var bandY := safe.y + heroH + gap;
        var bandH := safe.h - heroH - gap;
        var cw := Band(safe.w as real, gap as real, |remaining|);
        Some([hero] + Row(remaining, safe.x as real, bandY as real, cw, bandH as real, gap as real, |remaining|))
  }

  method LayoutHeroTopBandBottom(safe: Rect, heroes: seq<string>, supports: seq<string>, accessories: seq<string>,
                                 aspects: map<string, real>) returns (r: Option<seq<Box>>)
    ensures r == HeroTopBandBottomSpec(safe, heroes, supports, accessories, aspects)
    ensures r.None? <==> |heroes| != 1 || AspectOf(aspects, heroes[0]) < 1.0
    ensures r.Some? ==> BoxIds(r.value) == Lift(heroes + supports + accessories)
  {
    if |heroes| != 1 {
      return None;
    }
    var aspect := AspectOf(aspects, heroes[0]);
    if aspect < 1.0 {
      return None;
    }
    var heroH := Trunc(safe.h as real * 0.60);
    var gap := Trunc(safe.h as real * 0.05);
    var hero := MakeContainer(heroes[0], safe.x as real, safe.y as real, safe.w as real, heroH as real);
    var remaining := supports + accessories;
    var placed: seq<Box> := [];
    if remaining != [] {
      var bandY := safe.y + heroH + gap;
      var bandH := safe.h - heroH - gap;
      var cw := Band(safe.w as real, gap as real, |remaining|);
      placed := BandRow(remaining, safe.x as real, bandY as real, cw, bandH as real, gap as real);
      assert Some([hero] + placed) == HeroTopBandBottomSpec(safe, heroes, supports, accessories, aspects);
    } else {
      assert [hero] + placed == [hero];
    }
    r := Some([hero] + placed);
    TopBandIds(safe, heroes, supports, accessories, aspects);
  }

  /** The `for i, item in enumerate(remaining)` loop of the bottom band. */
  method BandRow(items: seq<string>, x: real, y: real, cw: real, ch: real, gap: real) returns (placed: seq<Box>)
    ensures placed == Row(items, x, y, cw, ch, gap, |items|)
  {
    placed := [];
    for i := 0 to |items|
      invariant placed == Row(items, x, y, cw, ch, gap, i)
    {
      var cx := x + i as real * (cw + gap);
      assert Row(items, x, y, cw, ch, gap, i + 1)
          == Row(items, x, y, cw, ch, gap, i) + [MakeContainer(items[i], x + ((i + 1) - 1) as real * (cw + gap), y, cw, ch)];
      placed := placed + [MakeContainer(items[i], cx, y, cw, ch)];
    }
  }

  /** The hero is placed first and every support and accessory once in the
      band after it. */
  lemma TopBandIds(safe: Rect, heroes: seq<string>, supports: seq<string>, accessories: seq<string>,
                   aspects: map<string, real>)
    ensures var r := HeroTopBandBottomSpec(safe, heroes, supports, accessories, aspects);
      r.Some? ==> BoxIds(r.value) == Lift(heroes + supports + accessories)
  {
    if |heroes| == 1 && AspectOf(aspects, heroes[0]) >= 1.0 {
      var heroH := Trunc(safe.h as real * 0.60);
      var gap := Trunc(safe.h as real * 0.05);
      var hero := MakeContainer(heroes[0], safe.x as real, safe.y as real, safe.w as real, heroH as real);
      var remaining := supports + accessories;
      AppendAssoc(heroes, supports, accessories);
      if remaining != [] {
        var bandY, bandH := safe.y + heroH + gap, safe.h - heroH - gap;
        var cw := Band(safe.w as real, gap as real, |remaining|);
        HeroThenRowIds(hero, heroes, remaining, safe.x as real, bandY as real, cw, bandH as real, gap as real);
      } else {
        assert heroes + remaining == heroes;
      }
    }
  }

  /** One hero box followed by a row of every remaining item lists the hero,
      then the items in order. */
  lemma HeroThenRowIds(hero: Box, heroes: seq<string>, remaining: seq<string>,
                       x: real, y: real, cw: real, ch: real, gap: real)
    requires |heroes| == 1 && hero.id == Some(heroes[0])
    ensures BoxIds([hero] + Row(remaining, x, y, cw, ch, gap, |remaining|)) == Lift(heroes + remaining)
  {
    LiftAppend(heroes, remaining);
    RowIds(remaining, x, y, cw, ch, gap, |remaining|);
    assert remaining[..|remaining|] == remaining;
    BoxIdsAppend([hero], Row(remaining, x, y, cw, ch, gap, |remaining|));
  }

  /** The band sits one gap below the `int(0.6 h)` hero, every band box has
      the band's top and height, and the band reaches the bottom of the safe
      area; the band's cells and gaps span the full safe width. */
  lemma TopBandGeometry(safe: Rect, heroes: seq<string>, supports: seq<string>, accessories: seq<string>,
                        aspects: map<string, real>)
    requires HeroTopBandBottomSpec(safe, heroes, supports, accessories, aspects).Some?
    ensures var bs := HeroTopBandBottomSpec(safe, heroes, supports, accessories, aspects).value;
      var heroH, gap := Trunc(safe.h as real * 0.60), Trunc(safe.h as real * 0.05);
      var bandTop := safe.y + heroH + gap;
      |bs| >= 1 && bs[0].y == Some(safe.y) && bs[0].h == Some(heroH)
      && InBand(bs[1..], bandTop, safe.y + safe.h - bandTop)
  {
    var heroH, gap := Trunc(safe.h as real * 0.60), Trunc(safe.h as real * 0.05);
    var bs := HeroTopBandBottomSpec(safe, heroes, supports, accessories, aspects).value;
    var hero := MakeContainer(heroes[0], safe.x as real, safe.y as real, safe.w as real, heroH as real);
    TruncOfInt(heroH);
    TruncOfInt(safe.y);
    var remaining := supports + accessories;
    if remaining == [] {
      assert bs == [hero];
    } else {
      var cw := Band(safe.w as real, gap as real, |remaining|);
      var row := Row(remaining, safe.x as real, (safe.y + heroH + gap) as real, cw, (safe.h - heroH - gap) as real,
                     gap as real, |remaining|);
      RowBand(remaining, safe.x as real, safe.y + heroH + gap, cw, safe.h - heroH - gap, gap as real, |remaining|);
      assert bs == [hero] + row;
      assert bs[1..] == row;
    }
  }

  /** The `n` band cells with their gaps span the safe width exactly. */
  lemma TopBandSpansWidth(safe: Rect, n: nat)
    requires n > 0
    ensures var gap := Trunc(safe.h as real * 0.05) as real;
      (n - 1) as real * (Band(safe.w as real, gap, n) + gap) + Band(safe.w as real, gap, n) == safe.w as real
  {
    BandTiles(safe.w as real, Trunc(safe.h as real * 0.05) as real, n);
  }

  /** `layout_three_column_balanced`. */
  function ThreeColumnBalancedSpec(safe: Rect, heroes: seq<string>, supports: seq<string>, accessories: seq<string>)
    : Option<seq<Box>>
  {
    if |heroes| != 2 then None
    else
      var colW := Band(safe.w as real, 80.0, 3);
      var left := MakeContainer(heroes[0], safe.x as real, safe.y as real, colW, safe.h as real);
      var right := MakeContainer(heroes[1], safe.x as real + (colW + 80.0) * 2.0, safe.y as real, colW, safe.h as real);
      var remaining := supports + accessories + heroes[2..];
      if remaining == [] then Some([left, right])
      else
        var mx := safe.x as real + colW + 80.0;
        var ch := Band(safe.h as real, 80.0, |remaining|);
        Some([left, right] + Column(remaining, mx, safe.y as real, colW, ch, 80.0, |remaining|))
  }

  method LayoutThreeColumnBalanced(safe: Rect, heroes: seq<string>, supports: seq<string>, accessories: seq<string>)
    returns (r: Option<seq<Box>>)
    ensures r == ThreeColumnBalancedSpec(safe, heroes, supports, accessories)
    ensures r.None? <==> |heroes| != 2
    ensures r.Some? ==> BoxIds(r.value) == Lift(heroes + supports + accessories)
  {
    if |heroes| != 2 {
      return None;
    }
    var colW := Band(safe.w as real, 80.0, 3);
    var left := MakeContainer(heroes[0], safe.x as real, safe.y as real, colW, safe.h as real);
    var right := MakeContainer(heroes[1], safe.x as real + (colW + 80.0) * 2.0, safe.y as real, colW, safe.h as real);
    var remaining := supports + accessories + heroes[2..];
    var placed: seq<Box> := [];
    if remaining != [] {
      var mx := safe.x as real + colW + 80.0;
      var ch := Band(safe.h as real, 80.0, |remaining|);
      placed := StackColumn(remaining, mx, safe.y as real, colW, ch, 80.0);
      assert Some([left, right] + placed) == ThreeColumnBalancedSpec(safe, heroes, supports, accessories);
    } else {
      assert [left, right] + placed == [left, right];
    }
    r := Some([left, right] + placed);
    ThreeColumnIds(safe, heroes, supports, accessories);
  }

  /** The `for i, item in enumerate(remaining)` loop of the middle column. */
  method StackColumn(items: seq<string>, x: real, y: real, cw: real, ch: real, gap: real) returns (placed: seq<Box>)
    ensures placed == Column(items, x, y, cw, ch, gap, |items|)
  {
    placed := [];
    for i := 0 to |items|
      invariant placed == Column(items, x, y, cw, ch, gap, i)
    {
      var cy := y + i as real * (ch + gap);
      assert Column(items, x, y, cw, ch, gap, i + 1)
          == Column(items, x, y, cw, ch, gap, i) + [MakeContainer(items[i], x, y + ((i + 1) - 1) as real * (ch + gap), cw, ch)];
      placed := placed + [MakeContainer(items[i], x, cy, cw, ch)];
    }
  }

  /** The two heroes take the outer columns and every other item is stacked
      in the middle, each exactly once. */
  lemma ThreeColumnIds(safe: Rect, heroes: seq<string>, supports: seq<string>, accessories: seq<string>)
    ensures var r := ThreeColumnBalancedSpec(safe, heroes, supports, accessories);
      r.Some? ==> BoxIds(r.value) == Lift(heroes + supports + accessories)
  {
    if |heroes| == 2 {
      var colW := Band(safe.w as real, 80.0, 3);
      var left := MakeContainer(heroes[0], safe.x as real, safe.y as real, colW, safe.h as real);
      var right := MakeContainer(heroes[1], safe.x as real + (colW + 80.0) * 2.0, safe.y as real, colW, safe.h as real);
      var remaining := supports + accessories + heroes[2..];
      assert heroes[2..] == [] && heroes == [heroes[0], heroes[1]];
      assert remaining == supports + accessories;
      if remaining != [] {
        PairThenColumnIds(left, right, heroes, remaining, safe.x as real + colW + 80.0, safe.y as real, colW,
                          Band(safe.h as real, 80.0, |remaining|), 80.0);
      } else {
        assert heroes + remaining == heroes;
      }
    }
  }

  /** Two hero boxes followed by a column of every remaining item list the
      two heroes, then the items in order. */
  lemma PairThenColumnIds(left: Box, right: Box, heroes: seq<string>, remaining: seq<string>,
                          x: real, y: real, cw: real, ch: real, gap: real)
    requires left.id.Some? && right.id.Some? && heroes == [left.id.value, right.id.value]
    ensures BoxIds([left, right] + Column(remaining, x, y, cw, ch, gap, |remaining|)) == Lift(heroes + remaining)
  {
    LiftAppend(heroes, remaining);
    ColumnIds(remaining, x, y, cw, ch, gap, |remaining|);
    assert remaining[..|remaining|] == remaining;
    BoxIdsAppend([left, right], Column(remaining, x, y, cw, ch, gap, |remaining|));
  }

  /** The outer hero columns of `layout_three_column_balanced` and the two
      80 px gaps span the safe width exactly, and the middle stack with its
      gaps spans the safe height exactly. */
  lemma ThreeColumnsTile(safe: Rect, rows: nat)
    requires rows > 0
    ensures var colW := Band(safe.w as real, 80.0, 3);
      safe.x as real + (colW + 80.0) * 2.0 + colW == (safe.x + safe.w) as real
    ensures (rows - 1) as real * (Band(safe.h as real, 80.0, rows) + 80.0) + Band(safe.h as real, 80.0, rows)
            == safe.h as real
  {
    BandTiles(safe.w as real, 80.0, 3);
    BandTiles(safe.h as real, 80.0, rows);
  }

  /** `layout_quadrant_split`. */
  function QuadrantSplitSpec(safe: Rect, heroes: seq<string>, supports: seq<string>, accessories: seq<string>)
    : Option<seq<Box>>
  {
    var large := heroes + supports;
    if |large| < 2 || |large| > 3 then None
    else
      var all := heroes + supports + accessories;
      var qw := Band(safe.w as real, 80.0, 2);
      var qh := Band(safe.h as real, 80.0, 2);
      Some(QuadrantHead(all, safe.x as real, safe.y as real, qw, qh)
           + FourthQuadrant(if |all| > 3 then all[3..] else [], safe.x as real + qw + 80.0, safe.y as real + qh + 80.0, qw, qh))
  }

  /** The first three quadrants: top left, top right and (with a third item)
      bottom left. */
  function QuadrantHead(all: seq<string>, x: real, y: real, qw: real, qh: real): (r: seq<Box>)
    requires |all| >= 2
    ensures BoxIds(r) == Lift(all[..if |all| > 2 then 3 else 2])
  {
    var top := [MakeContainer(all[0], x, y, qw, qh), MakeContainer(all[1], x + qw + 80.0, y, qw, qh)];
    if |all| > 2 then top + [MakeContainer(all[2], x, y + qh + 80.0, qw, qh)] else top
  }

  /** The bottom-right quadrant: one extra fills it, several share it two to
      a row with a 40 px gap. */
  function FourthQuadrant(extras: seq<string>, x: real, y: real, qw: real, qh: real): seq<Box> {
    if |extras| == 1 then [MakeContainer(extras[0], x, y, qw, qh)]
    else if |extras| > 1 then
      Cluster(extras, x, y, Band(qw, 40.0, 2), Band(qh, 40.0, CeilDiv(|extras|, 2)), |extras|)
    else []
  }

  method LayoutQuadrantSplit(safe: Rect, heroes: seq<string>, supports: seq<string>, accessories: seq<string>)
    returns (r: Option<seq<Box>>)
    ensures r == QuadrantSplitSpec(safe, heroes, supports, accessories)
    ensures r.None? <==> |heroes + supports| < 2 || |heroes + supports| > 3
    ensures r.Some? ==> BoxIds(r.value) == Lift(heroes + supports + accessories)
  {
    var large := heroes + supports;
    if |large| < 2 {
      return None;
    }
    if |large| > 3 {
      return None;
    }
    var all := heroes + supports + accessories;
    var qw := Band(safe.w as real, 80.0, 2);
    var qh := Band(safe.h as real, 80.0, 2);
    var x, y := safe.x as real, safe.y as real;
    var containers := PlaceHead(all, x, y, qw, qh);
    var extras := if |all| > 3 then all[3..] else [];
    var q4 := PlaceFourth(extras, x + qw + 80.0, y + qh + 80.0, qw, qh);
    r := Some(containers + q4);
    QuadrantIds(safe, heroes, supports, accessories);
  }

  /** The first three quadrants of `layout_quadrant_split`. */
  method PlaceHead(all: seq<string>, x: real, y: real, qw: real, qh: real) returns (containers: seq<Box>)
    requires |all| >= 2
    ensures containers == QuadrantHead(all, x, y, qw, qh)
  {
    containers := [MakeContainer(all[0], x, y, qw, qh), MakeContainer(all[1], x + qw + 80.0, y, qw, qh)];
    if |all| > 2 {
      containers := containers + [MakeContainer(all[2], x, y + qh + 80.0, qw, qh)];
    }
  }

  /** The fourth quadrant of `layout_quadrant_split`. */
  method PlaceFourth(extras: seq<string>, x: real, y: real, qw: real, qh: real) returns (q4: seq<Box>)
    ensures q4 == FourthQuadrant(extras, x, y, qw, qh)
  {
    q4 := [];
    if |extras| == 1 {
      q4 := [MakeContainer(extras[0], x, y, qw, qh)];
    } else if |extras| > 1 {
      var rows := CeilDiv(|extras|, 2);
      q4 := ClusterGrid(extras, x, y, Band(qw, 40.0, 2), Band(qh, 40.0, rows));
    }
  }

  /** The loop that clusters the extras two to a row in the fourth quadrant. */
  method ClusterGrid(items: seq<string>, startX: real, startY: real, cw: real, ch: real) returns (placed: seq<Box>)
    ensures placed == Cluster(items, startX, startY, cw, ch, |items|)
  {
    placed := [];
    for i := 0 to |items|
      invariant placed == Cluster(items, startX, startY, cw, ch, i)
    {
      var row, col := i / 2, i % 2;
      var cell := Cell(startX + col as real * (cw + 40.0), startY + row as real * (ch + 40.0), cw, ch);
      assert cell == CellOf(startX, startY, cw, ch, 40.0, i);
      assert Cluster(items, startX, startY, cw, ch, i + 1)
          == Cluster(items, startX, startY, cw, ch, i) + [Place(items[i], CellOf(startX, startY, cw, ch, 40.0, (i + 1) - 1))];
      placed := placed + [MakeContainer(items[i], cell.x, cell.y, cell.w, cell.h)];
    }
  }

  /** Every extra lands in the fourth quadrant, in order. */
  lemma FourthQuadrantIds(extras: seq<string>, x: real, y: real, qw: real, qh: real)
    ensures BoxIds(FourthQuadrant(extras, x, y, qw, qh)) == Lift(extras)
  {
    if |extras| > 1 {
      ClusterIds(extras, x, y, Band(qw, 40.0, 2), Band(qh, 40.0, CeilDiv(|extras|, 2)), |extras|);
      assert extras[..|extras|] == extras;
    }
  }

  /** Items 0 to 2 take the first three quadrants and the extras the fourth,
      so every item is placed exactly once, in order. */
  lemma QuadrantIds(safe: Rect, heroes: seq<string>, supports: seq<string>, accessories: seq<string>)
    ensures var r := QuadrantSplitSpec(safe, heroes, supports, accessories);
      r.Some? ==> BoxIds(r.value) == Lift(heroes + supports + accessories)
  {
    var large := heroes + supports;
    if 2 <= |large| <= 3 {
      var all := heroes + supports + accessories;
      QuadrantsCover(all, safe.x as real, safe.y as real, Band(safe.w as real, 80.0, 2), Band(safe.h as real, 80.0, 2));
    }
  }

  lemma QuadrantsCover(all: seq<string>, x: real, y: real, qw: real, qh: real)
    requires |all| >= 2
    ensures BoxIds(QuadrantHead(all, x, y, qw, qh)
                   + FourthQuadrant(if |all| > 3 then all[3..] else [], x + qw + 80.0, y + qh + 80.0, qw, qh))
            == Lift(all)
  {
    var head := QuadrantHead(all, x, y, qw, qh);
    var extras := if |all| > 3 then all[3..] else [];
    var q4 := FourthQuadrant(extras, x + qw + 80.0, y + qh + 80.0, qw, qh);
    FourthQuadrantIds(extras, x + qw + 80.0, y + qh + 80.0, qw, qh);
    var m := if |all| > 2 then 3 else 2;
    assert extras == all[m..];
    CoverFromParts(all, m, head, q4);
  }

  /** Two runs of boxes that place a prefix and the matching suffix place the
      whole list. */
  lemma CoverFromParts(all: seq<string>, m: nat, head: seq<Box>, tail: seq<Box>)
    requires m <= |all|
    requires BoxIds(head) == Lift(all[..m]) && BoxIds(tail) == Lift(all[m..])
    ensures BoxIds(head + tail) == Lift(all)
  {
    BoxIdsAppend(head, tail);
    LiftSplit(all, m);
  }

  // ---------------------------------------------------------------------------
  // The list of generators

  datatype Archetype =
    | HeroLeftGridRight | HeroRightGridLeft | HeroTopBandBottom | ThreeColumnBalanced | QuadrantSplit

  /** `GENERATORS`, in order. */
  const Generators: seq<Archetype> :=
    [HeroLeftGridRight, HeroRightGridLeft, HeroTopBandBottom, ThreeColumnBalanced, QuadrantSplit]

  /** The Python function name of each generator (`gen.__name__`). */
  function GeneratorName(g: Archetype): string {
    match g
    case HeroLeftGridRight => "layout_hero_left_grid_right"
    case HeroRightGridLeft => "layout_hero_right_grid_left"
    case HeroTopBandBottom => "layout_hero_top_band_bottom"
    case ThreeColumnBalanced => "layout_three_column_balanced"
    case QuadrantSplit => "layout_quadrant_split"
  }

  function Generate(g: Archetype, safe: Rect, heroes: seq<string>, supports: seq<string>, accessories: seq<string>,
                    aspects: map<string, real>): Option<seq<Box>>
  {
    match g
    case HeroLeftGridRight => HeroLeftGridRightSpec(safe, heroes, supports, accessories)
    case HeroRightGridLeft => HeroRightGridLeftSpec(safe, heroes, supports, accessories)
    case HeroTopBandBottom => HeroTopBandBottomSpec(safe, heroes, supports, accessories, aspects)
    case ThreeColumnBalanced => ThreeColumnBalancedSpec(safe, heroes, supports, accessories)
    case QuadrantSplit => QuadrantSplitSpec(safe, heroes, supports, accessories)
  }

  /** `gen(safe, heroes, supports, accessories, item_aspects)`: whatever
      archetype runs, a layout it returns places every item exactly once. */
  method RunGenerator(g: Archetype, safe: Rect, heroes: seq<string>, supports: seq<string>, accessories: seq<string>,
                      aspects: map<string, real>) returns (r: Option<seq<Box>>)
    ensures r == Generate(g, safe, heroes, supports, accessories, aspects)
    ensures r.Some? ==> BoxIds(r.value) == Lift(heroes + supports + accessories)
  {
    match g
    case HeroLeftGridRight => r := LayoutHeroLeftGridRight(safe, heroes, supports, accessories);
    case HeroRightGridLeft => r := LayoutHeroRightGridLeft(safe, heroes, supports, accessories);
    case HeroTopBandBottom => r := LayoutHeroTopBandBottom(safe, heroes, supports, accessories, aspects);
    case ThreeColumnBalanced => r := LayoutThreeColumnBalanced(safe, heroes, supports, accessories);
    case QuadrantSplit => r := LayoutQuadrantSplit(safe, heroes, supports, accessories);
  }

  // ---------------------------------------------------------------------------
  // The legacy matcher

  /** `sort_prio`: hero slots first, then by descending `width_px * height_px`. */
  function SlotPriority(c: Box): Sorting.Key {
    (if c.role == Some("hero") then 0 else 1, -(c.widthPx.GetOr(0) * c.heightPx.GetOr(0)))
  }

  /** A slot whose aspect ratio can be computed: `s_w / s_h` with the default
      height 100 raises `ZeroDivisionError` on a zero height. */
  predicate HasHeight(c: Box) {
    c.heightPx.GetOr(100) != 0
  }

  function SlotRole(c: Box): string { c.role.GetOr("support") }

  function SlotId(c: Box): string { c.id.GetOr("unknown") }

  function SlotAspect(c: Box): real
    requires HasHeight(c)
  {
    c.widthPx.GetOr(100) as real / c.heightPx.GetOr(100) as real
  }

  /** Only items whose key contains the slot's role compete for it. */
  predicate Eligible(slot: Box, item: string) {
    Contains(item, SlotRole(slot))
  }

  /** 1000 for an exact id match, minus 50 times the aspect penalty when the
      item's aspect is known. `penalty` stands for `abs(math.log(a / b))`. */
  function Score(slot: Box, item: string, aspects: map<string, real>, penalty: (real, real) -> real): real
    requires HasHeight(slot)
  {
    (if item == SlotId(slot) then 1000.0 else 0.0)
    - (if item in aspects then 50.0 * penalty(SlotAspect(slot), aspects[item]) else 0.0)
  }

  /** The candidate the scan keeps: an eligible item replaces the current best
      only when it scores strictly higher. */
  function Best(slot: Box, items: seq<string>, aspects: map<string, real>, penalty: (real, real) -> real)
    : (r: Option<string>)
    requires HasHeight(slot)
    ensures r.Some? ==> r.value in items && Eligible(slot, r.value)
    ensures r.None? <==> forall i :: 0 <= i < |items| ==> !Eligible(slot, items[i])
    decreases |items|
  {
    if items == [] then None
    else
      var b := Best(slot, items[..|items| - 1], aspects, penalty);
      var it := items[|items| - 1];
      if Eligible(slot, it) && (b.None? || Score(slot, it, aspects, penalty) > Score(slot, b.value, aspects, penalty))
      then Some(it)
      else b
  }

  /** The chosen item is a first maximum: it scores at least as high as every
      eligible item, and strictly higher than every eligible item before it. */
  lemma {:induction false} BestIsFirstMaximum(slot: Box, items: seq<string>, aspects: map<string, real>,
                                              penalty: (real, real) -> real) returns (j: int)
    requires HasHeight(slot) && Best(slot, items, aspects, penalty).Some?
    ensures 0 <= j < |items| && items[j] == Best(slot, items, aspects, penalty).value
    ensures forall i :: 0 <= i < |items| && Eligible(slot, items[i]) ==>
      Score(slot, items[i], aspects, penalty) <= Score(slot, items[j], aspects, penalty)
    ensures forall i :: 0 <= i < j && Eligible(slot, items[i]) ==>
      Score(slot, items[i], aspects, penalty) < Score(slot, items[j], aspects, penalty)
    decreases |items|
  {
    var pre := items[..|items| - 1];
    var b := Best(slot, pre, aspects, penalty);
    var it := items[|items| - 1];
    if Eligible(slot, it) && (b.None? || Score(slot, it, aspects, penalty) > Score(slot, b.value, aspects, penalty)) {
      j := |items| - 1;
      if b.Some? {
        var j' := BestIsFirstMaximum(slot, pre, aspects, penalty);
        assert forall i :: 0 <= i < |pre| ==> pre[i] == items[i];
      }
    } else {
      j := BestIsFirstMaximum(slot, pre, aspects, penalty);
      assert forall i :: 0 <= i < |pre| ==> pre[i] == items[i];
    }
  }

  /** An exact id match overrides everything: when no aspect penalty is
      negative and the matching item's own penalty is below 20, the item whose
      key is the slot's id wins the slot. */
  lemma ExactIdWins(slot: Box, items: seq<string>, aspects: map<string, real>, penalty: (real, real) -> real)
    requires HasHeight(slot)
    requires SlotId(slot) in items && Eligible(slot, SlotId(slot))
    requires forall a, b :: penalty(a, b) >= 0.0
    requires SlotId(slot) in aspects ==> penalty(SlotAspect(slot), aspects[SlotId(slot)]) < 20.0
    ensures Best(slot, items, aspects, penalty) == Some(SlotId(slot))
  {
    var k :| 0 <= k < |items| && items[k] == SlotId(slot);
    var j := BestIsFirstMaximum(slot, items, aspects, penalty);
    assert Score(slot, items[k], aspects, penalty) > 0.0;
    if items[j] != SlotId(slot) {
      OtherScoresNonPositive(slot, items[j], aspects, penalty);
    }
  }

  /** Without the id bonus, a non-negative penalty leaves a score of at most 0. */
  lemma OtherScoresNonPositive(slot: Box, item: string, aspects: map<string, real>, penalty: (real, real) -> real)
    requires HasHeight(slot) && item != SlotId(slot)
    requires forall a, b :: penalty(a, b) >= 0.0
    ensures Score(slot, item, aspects, penalty) <= 0.0
  {
    if item in aspects {
      var sa, ia := SlotAspect(slot), aspects[item];
      var p := penalty(sa, ia);
      assert p >= 0.0;
      assert Score(slot, item, aspects, penalty) == 0.0 - 50.0 * p;
    } else {
      assert Score(slot, item, aspects, penalty) == 0.0 - 0.0;
    }
  }

  /** The scan of `available_items` for one slot. */
  method BestCandidate(slot: Box, available: seq<string>, aspects: map<string, real>, penalty: (real, real) -> real)
    returns (best: Option<string>)
    requires HasHeight(slot)
    ensures best == Best(slot, available, aspects, penalty)
  {
    var slotAspect := SlotAspect(slot);
    best := None;
    var bestScore := 0.0;
    for i := 0 to |available|
      invariant best == Best(slot, available[..i], aspects, penalty)
      invariant best.Some? ==> bestScore == Score(slot, best.value, aspects, penalty)
    {
      assert available[..i + 1][..i] == available[..i];
      var item := available[i];
      if !Contains(item, SlotRole(slot)) {
        continue;
      }
      var score := 0.0;
      if item == SlotId(slot) {
        score := score + 1000.0;
      }
      if item in aspects {
        score := score - 50.0 * penalty(slotAspect, aspects[item]);
      }
      if best.None? || score > bestScore {
        bestScore := score;
        best := Some(item);
      }
    }
    assert available[..|available|] == available;
  }

  /** `list.remove(x)`: drops the first occurrence. */
  function Remove(s: seq<string>, x: string): (r: seq<string>)
    ensures x in s ==> |r| == |s| - 1
    ensures forall y :: y in r ==> y in s
    ensures forall y :: y in s && y != x ==> y in r
    decreases |s|
  {
    if s == [] then []
    else if s[0] == x then s[1..]
    else [s[0]] + Remove(s[1..], x)
  }

  /** Removing from a list without repetitions removes every copy. */
  lemma {:induction false} RemoveNoDup(s: seq<string>, x: string)
    requires NoDup(s)
    ensures NoDup(Remove(s, x)) && x !in Remove(s, x)
    decreases |s|
  {
    if s != [] {
      assert NoDup(s[1..]) by {
        forall i, j | 0 <= i < j < |s[1..]| ensures s[1..][i] != s[1..][j] {
          assert s[1..][i] == s[i + 1] && s[1..][j] == s[j + 1];
        }
      }
      forall j | 0 <= j < |s[1..]| ensures s[1..][j] != s[0] {
        assert s[1..][j] == s[j + 1];
      }
      assert s[0] !in s[1..];
      if s[0] != x {
        RemoveNoDup(s[1..], x);
        var t := Remove(s[1..], x);
        assert s[0] !in t;
        forall i, j | 0 <= i < j < |[s[0]] + t| ensures ([s[0]] + t)[i] != ([s[0]] + t)[j] {
          if i == 0 {
            assert ([s[0]] + t)[j] == t[j - 1];
          } else {
            assert ([s[0]] + t)[i] == t[i - 1] && ([s[0]] + t)[j] == t[j - 1];
          }
        }
      }
    }
  }

  /** The slot-by-slot assignment, over the slots still to fill and the items
      still available. */
  function AssignSlots(slots: seq<Box>, available: seq<string>, aspects: map<string, real>,
                       penalty: (real, real) -> real): seq<Box>
    requires forall c :: c in slots ==> HasHeight(c)
    decreases |slots|
  {
    if slots == [] then []
    else
      var best := Best(slots[0], available, aspects, penalty);
      if best.Some? && best.value != "" then
        [Normalize(slots[0]).(id := best)] + AssignSlots(slots[1..], Remove(available, best.value), aspects, penalty)
      else AssignSlots(slots[1..], available, aspects, penalty)
  }

  predicate IsHeroSlot(c: Box) { c.role == Some("hero") }

  predicate IsHeroKey(k: string) { Contains(k, "hero") }

  /** `map_inventory_to_legacy`. */
  function MapInventory(inventory: seq<string>, containers: seq<Box>, aspects: map<string, real>,
                        penalty: (real, real) -> real): Option<seq<Box>>
    requires forall c :: c in containers ==> HasHeight(c)
  {
    if |Filter(containers, IsHeroSlot)| != |Filter(inventory, IsHeroKey)| then None
    else
      var sorted := Sorting.SortBy(containers, SlotPriority);
      SortedMembers(containers);
      Some(AssignSlots(sorted, inventory, aspects, penalty))
  }

  lemma SortedMembers(containers: seq<Box>)
    ensures forall c :: c in Sorting.SortBy(containers, SlotPriority) <==> c in containers
  {
    Sorting.SortByCorrect(containers, SlotPriority);
    forall c ensures c in Sorting.SortBy(containers, SlotPriority) <==> c in containers {
      assert c in Sorting.SortBy(containers, SlotPriority) <==> c in multiset(Sorting.SortBy(containers, SlotPriority));
      assert c in containers <==> c in multiset(containers);
    }
  }

  method MapInventoryToLegacy(inventory: seq<string>, containers: seq<Box>, aspects: map<string, real>,
                              penalty: (real, real) -> real) returns (mapped: Option<seq<Box>>)
    requires forall c :: c in containers ==> HasHeight(c)
    ensures mapped == MapInventory(inventory, containers, aspects, penalty)
    ensures mapped.None? <==> |Filter(containers, IsHeroSlot)| != |Filter(inventory, IsHeroKey)|
  {
    var templateHeroSlots := Filter(containers, IsHeroSlot);
    var inventoryHeroes := Filter(inventory, IsHeroKey);
    if |templateHeroSlots| != |inventoryHeroes| {
      return None;
    }
    var out: seq<Box> := [];
    var available := inventory;
    var sorted := Sorting.SortBy(containers, SlotPriority);
    SortedMembers(containers);
    for i := 0 to |sorted|
      invariant out + AssignSlots(sorted[i..], available, aspects, penalty)
             == AssignSlots(sorted, inventory, aspects, penalty)
    {
      assert sorted[i..] == [sorted[i]] + sorted[i + 1..];
      out, available := AssignOne(sorted[i], sorted[i + 1..], out, available, aspects, penalty);
    }
    assert sorted[|sorted|..] == [];
    assert out + AssignSlots([], available, aspects, penalty) == out;
    mapped := Some(out);
    assert mapped == MapInventory(inventory, containers, aspects, penalty);
  }

  /** One pass of the slot loop: the best candidate for `slot`, if any,
      fills a copy of it and leaves the pool. */
  method AssignOne(slot: Box, rest: seq<Box>, out: seq<Box>, available: seq<string>, aspects: map<string, real>,
                   penalty: (real, real) -> real) returns (out': seq<Box>, available': seq<string>)
    requires HasHeight(slot) && forall c :: c in rest ==> HasHeight(c)
    ensures out' + AssignSlots(rest, available', aspects, penalty)
         == out + AssignSlots([slot] + rest, available, aspects, penalty)
  {
    assert ([slot] + rest)[0] == slot && ([slot] + rest)[1..] == rest;
    var best := BestCandidate(slot, available, aspects, penalty);
    if best.Some? && best.value != "" {
      var c := Normalize(slot);
      c := c.(id := best);
      out' := out + [c];
      available' := Remove(available, best.value);
      assert out + ([c] + AssignSlots(rest, available', aspects, penalty))
          == out' + AssignSlots(rest, available', aspects, penalty);
    } else {
      out', available' := out, available;
    }
  }

  lemma NoDupCons<T>(x: T, t: seq<T>)
    requires NoDup(t) && x !in t
    ensures NoDup([x] + t)
  {
    var s := [x] + t;
    forall i, j | 0 <= i < j < |s| ensures s[i] != s[j] {
      assert s[j] == t[j - 1];
      if i > 0 {
        assert s[i] == t[i - 1];
      }
    }
  }

  /** Every filled slot names an available item that contains the slot's
      role. */
  predicate DrawnFrom(m: seq<Box>, available: seq<string>) {
    forall k :: 0 <= k < |m| ==>
      m[k].id.Some? && m[k].id.value in available && Contains(m[k].id.value, SlotRole(m[k]))
  }

  /** At most one box per slot, each filled from the inventory with an
      eligible item. */
  lemma {:induction false} AssignedFromInventory(slots: seq<Box>, available: seq<string>, aspects: map<string, real>,
                                                 penalty: (real, real) -> real)
    requires forall c :: c in slots ==> HasHeight(c)
    ensures |AssignSlots(slots, available, aspects, penalty)| <= |slots|
    ensures DrawnFrom(AssignSlots(slots, available, aspects, penalty), available)
    decreases |slots|
  {
    if slots != [] {
      assert forall c :: c in slots[1..] ==> c in slots;
      var best := Best(slots[0], available, aspects, penalty);
      if best.Some? && best.value != "" {
        var rest := Remove(available, best.value);
        AssignedFromInventory(slots[1..], rest, aspects, penalty);
        var tail := AssignSlots(slots[1..], rest, aspects, penalty);
        var head := Normalize(slots[0]).(id := best);
        assert SlotRole(head) == SlotRole(slots[0]);
        assert AssignSlots(slots, available, aspects, penalty) == [head] + tail;
      } else {
        AssignedFromInventory(slots[1..], available, aspects, penalty);
      }
    }
  }

  /** No item is mapped twice: from an inventory without repeated keys the
      assigned ids are pairwise distinct. */
  lemma {:induction false} AssignedDistinct(slots: seq<Box>, available: seq<string>, aspects: map<string, real>,
                                            penalty: (real, real) -> real)
    requires forall c :: c in slots ==> HasHeight(c)
    requires NoDup(available)
    ensures NoDup(BoxIds(AssignSlots(slots, available, aspects, penalty)))
    decreases |slots|
  {
    if slots != [] {
      assert forall c :: c in slots[1..] ==> c in slots;
      var best := Best(slots[0], available, aspects, penalty);
      if best.Some? && best.value != "" {
        var rest := Remove(available, best.value);
        RemoveNoDup(available, best.value);
        AssignedDistinct(slots[1..], rest, aspects, penalty);
        AssignedFromInventory(slots[1..], rest, aspects, penalty);
        var tail := AssignSlots(slots[1..], rest, aspects, penalty);
        var head := Normalize(slots[0]).(id := best);
        assert AssignSlots(slots, available, aspects, penalty) == [head] + tail;
        DistinctCons(head, tail, rest);
      } else {
        AssignedDistinct(slots[1..], available, aspects, penalty);
      }
    }
  }

  /** A box whose id is not among the items a distinct assignment draws from
      keeps the ids distinct when put in front. */
  lemma DistinctCons(head: Box, tail: seq<Box>, rest: seq<string>)
    requires head.id.Some? && head.id.value !in rest
    requires DrawnFrom(tail, rest) && NoDup(BoxIds(tail))
    ensures NoDup(BoxIds([head] + tail))
  {
    assert head.id !in BoxIds(tail) by {
      forall k | 0 <= k < |tail| ensures BoxIds(tail)[k] != head.id {
        assert tail[k].id.value in rest;
      }
    }
    BoxIdsAppend([head], tail);
    NoDupCons(head.id, BoxIds(tail));
  }

  // ---------------------------------------------------------------------------
  // Selection of every valid template

  /** One entry of `valid_options`. */
  datatype Template = Template(name: string, kind: string, containers: seq<Box>)

  /** A legacy preset: its name and its `containers` list (empty when absent). */
  datatype Preset = Preset(name: string, containers: seq<Box>)

  predicate IsAccessoryKey(k: string) { Contains(k, "accessory") }

  predicate IsSupportKey(k: string) { !IsHeroKey(k) && !IsAccessoryKey(k) }

  /** The safe area hard-wired for A3 templates. */
  const TemplateSafeArea: Rect := Rect(177, 380, 4607, 2920)

  predicate PresetsMeasurable(presets: seq<Preset>) {
    forall p, c :: p in presets && c in p.containers ==> HasHeight(c)
  }

  function DynamicOptions(gens: seq<Archetype>, safe: Rect, heroes: seq<string>, supports: seq<string>,
                          accessories: seq<string>, aspects: map<string, real>): seq<Template>
  {
    if gens == [] then []
    else
      var pre := DynamicOptions(gens[..|gens| - 1], safe, heroes, supports, accessories, aspects);
      var g := gens[|gens| - 1];
      var res := Generate(g, safe, heroes, supports, accessories, aspects);
      if res.Some? && res.value != [] then pre + [Template("Dynamic_" + GeneratorName(g), "dynamic", res.value)]
      else pre
  }

  function LegacyOptions(presets: seq<Preset>, inventory: seq<string>, aspects: map<string, real>,
                         penalty: (real, real) -> real): seq<Template>
    requires PresetsMeasurable(presets)
  {
    if presets == [] then []
    else
      var pre := LegacyOptions(presets[..|presets| - 1], inventory, aspects, penalty);
      var p := presets[|presets| - 1];
      var mapped := MapInventory(inventory, p.containers, aspects, penalty);
      if mapped.Some? && mapped.value != [] then pre + [Template("Legacy_" + p.name, "fixed", mapped.value)]
      else pre
  }

  function ValidTemplates(inventory: seq<string>, aspects: map<string, real>, presets: seq<Preset>,
                          penalty: (real, real) -> real): seq<Template>
    requires PresetsMeasurable(presets)
  {
    var heroes := Filter(inventory, IsHeroKey);
    var accessories := Filter(inventory, IsAccessoryKey);
    var supports := Filter(inventory, IsSupportKey);
    DynamicOptions(Generators, TemplateSafeArea, heroes, supports, accessories, aspects)
    + LegacyOptions(presets, inventory, aspects, penalty)
  }

  /** `get_valid_templates`, with the legacy presets passed in. */
  method GetValidTemplates(inventory: seq<string>, aspects: map<string, real>, presets: seq<Preset>,
                           penalty: (real, real) -> real) returns (options: seq<Template>)
    requires PresetsMeasurable(presets)
    ensures options == ValidTemplates(inventory, aspects, presets, penalty)
    ensures forall k :: 0 <= k < |options| ==> options[k].containers != []
  {
    var heroes := Filter(inventory, IsHeroKey);
    var accessories := Filter(inventory, IsAccessoryKey);
    var supports := Filter(inventory, IsSupportKey);
    options := [];
    for i := 0 to |Generators|
      invariant options == DynamicOptions(Generators[..i], TemplateSafeArea, heroes, supports, accessories, aspects)
    {
      assert Generators[..i + 1][..i] == Generators[..i];
      var g := Generators[i];
      var res := RunGenerator(g, TemplateSafeArea, heroes, supports, accessories, aspects);
      if res.Some? && res.value != [] {
        options := options + [Template("Dynamic_" + GeneratorName(g), "dynamic", res.value)];
      }
    }
    assert Generators[..|Generators|] == Generators;
    ghost var dynamic := options;
    var legacy: seq<Template> := [];
    for i := 0 to |presets|
      invariant PresetsMeasurable(presets[..i])
      invariant legacy == LegacyOptions(presets[..i], inventory, aspects, penalty)
    {
      assert presets[..i + 1][..i] == presets[..i];
      var p := presets[i];
      var mapped := MapInventoryToLegacy(inventory, p.containers, aspects, penalty);
      if mapped.Some? && mapped.value != [] {
        legacy := legacy + [Template("Legacy_" + p.name, "fixed", mapped.value)];
      }
    }
    assert presets[..|presets|] == presets;
    options := options + legacy;
    OptionsNonEmpty(inventory, aspects, presets, penalty);
  }

  /** Every option offered has at least one container, and generated options
      are labelled "dynamic", legacy ones "fixed". */
  lemma OptionsNonEmpty(inventory: seq<string>, aspects: map<string, real>, presets: seq<Preset>,
                        penalty: (real, real) -> real)
    requires PresetsMeasurable(presets)
    ensures forall o :: o in ValidTemplates(inventory, aspects, presets, penalty) ==>
      o.containers != [] && (o.kind == "dynamic" || o.kind == "fixed")
  {
    var heroes := Filter(inventory, IsHeroKey);
    var accessories := Filter(inventory, IsAccessoryKey);
    var supports := Filter(inventory, IsSupportKey);
    DynamicNonEmpty(Generators, TemplateSafeArea, heroes, supports, accessories, aspects);
    LegacyNonEmpty(presets, inventory, aspects, penalty);
  }

  lemma {:induction false} DynamicNonEmpty(gens: seq<Archetype>, safe: Rect, heroes: seq<string>, supports: seq<string>,
                                           accessories: seq<string>, aspects: map<string, real>)
    ensures forall o :: o in DynamicOptions(gens, safe, heroes, supports, accessories, aspects) ==>
      o.containers != [] && o.kind == "dynamic"
    decreases |gens|
  {
    if gens != [] {
      DynamicNonEmpty(gens[..|gens| - 1], safe, heroes, supports, accessories, aspects);
    }
  }

  lemma {:induction false} LegacyNonEmpty(presets: seq<Preset>, inventory: seq<string>, aspects: map<string, real>,
                                          penalty: (real, real) -> real)
    requires PresetsMeasurable(presets)
    ensures forall o :: o in LegacyOptions(presets, inventory, aspects, penalty) ==>
      o.containers != [] && o.kind == "fixed"
    decreases |presets|
  {
    if presets != [] {
      LegacyNonEmpty(presets[..|presets| - 1], inventory, aspects, penalty);
    }
  }

  /** The three groups of `get_valid_templates`: supports share no key with
      heroes or accessories, and every inventory key is in at least one group. */
  lemma PartitionCovers(inventory: seq<string>)
    ensures var heroes, accessories, supports :=
      Filter(inventory, IsHeroKey), Filter(inventory, IsAccessoryKey), Filter(inventory, IsSupportKey);
      (forall k :: k in supports ==> k !in heroes && k !in accessories)
      && (forall k :: k in inventory ==> k in heroes || k in accessories || k in supports)
  {
    FilterMembers(inventory, IsHeroKey);
    FilterMembers(inventory, IsAccessoryKey);
    FilterMembers(inventory, IsSupportKey);
  }

  /** A key that names both roles, such as "hero_accessory", is handed to the
      generators twice, once as a hero and once as an accessory. */
  lemma HeroAccessoryTwice()
    ensures var inv := ["hero_accessory"];
      Filter(inv, IsHeroKey) == inv && Filter(inv, IsAccessoryKey) == inv
  {
    var k := "hero_accessory";
    assert OccursAt(k, "hero", 0);
    ContainsWitness(k, "hero", 0);
    assert OccursAt(k, "accessory", 5);
    ContainsWitness(k, "accessory", 5);
  }
}
