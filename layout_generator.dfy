/** The dynamic layout generator (engine/layout_generator.py): the safe area
    of a canvas configuration, the choice of one of the valid templates, and
    three further generators that stack and grid inventory ids inside the
    safe area.

    Positions inside the generators are computed with real numbers and cut
    to integers by `make_container`. The random choice of a template is an
    injected index. */
module LayoutGenerator {
  import opened Common
  import opened LayoutTree
  import opened Boxes
  import Templates

  // ---------------------------------------------------------------------------
  // Safe area

  /** The keys of the configuration that `get_safe_area` reads; a missing
      margin, header, header area or footer is `None`. */
  datatype CanvasConfig = CanvasConfig(widthPx: int, heightPx: int, safeMarginPx: Option<int>,
                                       headerH: Option<int>, footerH: Option<int>)

  datatype SafeArea = SafeArea(x: int, y: int, w: int, h: int, fullW: int, fullH: int)

  function GetSafeArea(c: CanvasConfig): SafeArea {
    var margin := c.safeMarginPx.GetOr(150);
    var headerH := c.headerH.GetOr(0);
    var footerH := c.footerH.GetOr(0);
    SafeArea(margin, margin + headerH, c.widthPx - margin * 2, c.heightPx - margin * 2 - headerH - footerH,
             c.widthPx, c.heightPx)
  }

  /** The safe area leaves the margin (150 by default) on every side, with the
      header above and the footer below it (0 when absent): margins, header,
      footer and safe area tile the canvas. */
  lemma SafeAreaTiles(c: CanvasConfig)
    ensures var s, m := GetSafeArea(c), c.safeMarginPx.GetOr(150);
      s.x == m && s.x + s.w + m == c.widthPx
      && s.y == m + c.headerH.GetOr(0) && s.y + s.h + c.footerH.GetOr(0) + m == c.heightPx
      && s.fullW == c.widthPx && s.fullH == c.heightPx
    ensures c.safeMarginPx.None? && c.headerH.None? && c.footerH.None? ==>
      GetSafeArea(c) == SafeArea(150, 150, c.widthPx - 300, c.heightPx - 300, c.widthPx, c.heightPx)
  {
  }

  function RectOf(s: SafeArea): Rect { Rect(s.x, s.y, s.w, s.h) }

  // ---------------------------------------------------------------------------
  // Choosing a template

  /** `if preferred_template:`: a preference is given and is not empty. */
  predicate Preferred(preferred: Option<string>) {
    preferred.Some? && preferred.value != ""
  }

  predicate NameHas(o: Templates.Template, text: string) {
    Contains(o.name, text)
  }

  /** The containers `generate_dynamic_layout` returns for the valid
      `options`: none without options, those of the first option whose name
      contains the preferred text, and otherwise those of the option at the
      injected index `pick` (taken modulo the number of options). */
  function Choose(options: seq<Templates.Template>, preferred: Option<string>, pick: nat): seq<Box> {
    if options == [] then []
    else
      var matches := if Preferred(preferred) then Filter(options, (o: Templates.Template) => NameHas(o, preferred.value)) else [];
      if matches != [] then matches[0].containers else options[pick % |options|].containers
  }

  /** `generate_dynamic_layout`, with the measured aspect ratios and the
      legacy presets passed in. */
  method GenerateDynamicLayout(inventory: seq<string>, aspects: map<string, real>, presets: seq<Templates.Preset>,
                               penalty: (real, real) -> real, preferred: Option<string>, pick: nat)
    returns (containers: seq<Box>)
    requires Templates.PresetsMeasurable(presets)
    ensures containers == Choose(Templates.ValidTemplates(inventory, aspects, presets, penalty), preferred, pick)
  {
    var options := Templates.GetValidTemplates(inventory, aspects, presets, penalty);
    if options == [] {
      return [];
    }
    if Preferred(preferred) {
      var matches := Filter(options, (o: Templates.Template) => NameHas(o, preferred.value));
      if matches != [] {
        return matches[0].containers;
      }
    }
    containers := options[pick % |options|].containers;
  }

  /** No options give no containers; a preference that some option's name
      contains selects the first such option; otherwise the containers are
      those of the option at the injected index. */
  lemma ChooseSpec(options: seq<Templates.Template>, preferred: Option<string>, pick: nat)
    ensures options == [] ==> Choose(options, preferred, pick) == []
    ensures Preferred(preferred) && (exists k :: 0 <= k < |options| && NameHas(options[k], preferred.value)) ==>
      exists k :: 0 <= k < |options| && NameHas(options[k], preferred.value)
        && (forall j :: 0 <= j < k ==> !NameHas(options[j], preferred.value))
        && Choose(options, preferred, pick) == options[k].containers
    ensures options != [] && (!Preferred(preferred) || forall k :: 0 <= k < |options| ==> !NameHas(options[k], preferred.value)) ==>
      Choose(options, preferred, pick) == options[pick % |options|].containers
  {
    if options != [] && Preferred(preferred) {
      var p := (o: Templates.Template) => NameHas(o, preferred.value);
      var matches := Filter(options, p);
      FilterMembers(options, p);
      if exists k :: 0 <= k < |options| && NameHas(options[k], preferred.value) {
        var k :| 0 <= k < |options| && NameHas(options[k], preferred.value);
        assert options[k] in matches;
        FilterHead(options, p);
      } else {
        forall o | o in options ensures !p(o) {
          var i :| 0 <= i < |options| && options[i] == o;
        }
        FilterNone(options, p);
      }
    }
  }

  /** Every valid option has containers, so the generator returns an empty
      list exactly when no template fits. */
  lemma ChooseEmpty(options: seq<Templates.Template>, preferred: Option<string>, pick: nat)
    requires forall k :: 0 <= k < |options| ==> options[k].containers != []
    ensures Choose(options, preferred, pick) == [] <==> options == []
  {
    if options != [] && Preferred(preferred) {
      var p := (o: Templates.Template) => NameHas(o, preferred.value);
      var matches := Filter(options, p);
      FilterMembers(options, p);
      if matches != [] {
        assert matches[0] in options;
      }
    }
  }

  // ---------------------------------------------------------------------------
  // Stacks and grids

  /** The offset of part `k` of a row of parts of size `size`. */
  function Span(k: nat, size: real): real { k as real * size }

  lemma SpanStep(k: nat, size: real)
    ensures Span(k + 1, size) == Span(k, size) + size
  {
  }

  /** Part `k` of `n` lies within the `n` parts. */
  lemma SpanFits(k: nat, n: nat, size: real)
    requires k < n && size >= 0.0
    ensures 0.0 <= Span(k, size) && Span(k, size) + size <= Span(n, size)
  {
    MulNonneg(k as real, size);
    MulMonotone(size, (k + 1) as real, n as real);
  }

  /** `n` parts of `len / n` make up `len`. */
  lemma SpanWhole(n: Pos, len: real)
    ensures Span(n, len / n as real) == len
  {
  }

  /** `n` boxes stacked from `y0` downwards, each `h` high. */
  function StackSpec(items: seq<string>, x: real, y0: real, w: real, h: real, n: nat): seq<Box>
    requires n <= |items|
  {
    if n == 0 then [] else StackSpec(items, x, y0, w, h, n - 1) + [MakeContainer(items[n - 1], x, y0 + Span(n - 1, h), w, h)]
  }

  /** The loop `for item in ...: append; current_y += h`. */
  method Stack(items: seq<string>, x: real, y0: real, w: real, h: real) returns (boxes: seq<Box>, currentY: real)
    ensures boxes == StackSpec(items, x, y0, w, h, |items|)
    ensures currentY == y0 + Span(|items|, h)
  {
    boxes := [];
    currentY := y0;
    for k := 0 to |items|
      invariant boxes == StackSpec(items, x, y0, w, h, k)
      invariant currentY == y0 + Span(k, h)
    {
      boxes := boxes + [MakeContainer(items[k], x, currentY, w, h)];
      SpanStep(k, h);
      currentY := currentY + h;
    }
  }

  /** Cell `i` of a grid with `cols` columns filled row by row, shrunk by
      `pad` on every side. */
  function GridBox(id: string, x0: real, y0: real, cw: real, ch: real, cols: Pos, pad: real, i: nat): Box {
    MakeContainer(id, x0 + Span(i % cols, cw) + pad, y0 + Span(i / cols, ch) + pad, cw - pad * 2.0, ch - pad * 2.0)
  }

  function GridSpec(items: seq<string>, x0: real, y0: real, cw: real, ch: real, cols: Pos, pad: real, n: nat): seq<Box>
    requires n <= |items|
  {
    if n == 0 then [] else GridSpec(items, x0, y0, cw, ch, cols, pad, n - 1) + [GridBox(items[n - 1], x0, y0, cw, ch, cols, pad, n - 1)]
  }

  /** The loop `for i, item in enumerate(...): r = i // cols; c = i % cols`. */
  method Grid(items: seq<string>, x0: real, y0: real, cw: real, ch: real, cols: Pos, pad: real) returns (boxes: seq<Box>)
    ensures boxes == GridSpec(items, x0, y0, cw, ch, cols, pad, |items|)
  {
    boxes := [];
    for i := 0 to |items|
      invariant boxes == GridSpec(items, x0, y0, cw, ch, cols, pad, i)
    {
      var r := i / cols;
      var c := i % cols;
      var cx := x0 + Span(c, cw);
      var cy := y0 + Span(r, ch);
      boxes := boxes + [MakeContainer(items[i], cx + pad, cy + pad, cw - pad * 2.0, ch - pad * 2.0)];
    }
  }

  lemma {:induction false} StackAt(items: seq<string>, x: real, y0: real, w: real, h: real, n: nat)
    requires n <= |items|
    ensures |StackSpec(items, x, y0, w, h, n)| == n
    ensures forall k :: 0 <= k < n ==> StackSpec(items, x, y0, w, h, n)[k] == MakeContainer(items[k], x, y0 + Span(k, h), w, h)
    decreases n
  {
    if n > 0 {
      StackAt(items, x, y0, w, h, n - 1);
      var prev := StackSpec(items, x, y0, w, h, n - 1);
      var here := StackSpec(items, x, y0, w, h, n);
      assert forall k :: 0 <= k < n - 1 ==> here[k] == prev[k];
    }
  }

  lemma {:induction false} GridAt(items: seq<string>, x0: real, y0: real, cw: real, ch: real, cols: Pos, pad: real, n: nat)
    requires n <= |items|
    ensures |GridSpec(items, x0, y0, cw, ch, cols, pad, n)| == n
    ensures forall i :: 0 <= i < n ==> GridSpec(items, x0, y0, cw, ch, cols, pad, n)[i] == GridBox(items[i], x0, y0, cw, ch, cols, pad, i)
    decreases n
  {
    if n > 0 {
      GridAt(items, x0, y0, cw, ch, cols, pad, n - 1);
      var prev := GridSpec(items, x0, y0, cw, ch, cols, pad, n - 1);
      var here := GridSpec(items, x0, y0, cw, ch, cols, pad, n);
      assert forall i :: 0 <= i < n - 1 ==> here[i] == prev[i];
    }
  }

  /** Item `i` of `n` in a grid of one to three columns and `ceil(n / cols)`
      rows: its row and column are inside the grid. */
  lemma GridPosition(i: nat, n: nat, cols: Pos)
    requires i < n && cols <= 3
    ensures i % cols < cols && i / cols < CeilDiv(n, cols)
  {
    if cols == 1 {
    } else if cols == 2 {
    } else {
    }
  }

  /** The column of item `i` lies inside a row of `cols` cells of width `cw`. */
  lemma GridColumnInside(i: nat, cols: Pos, cw: real)
    requires cw >= 0.0
    ensures 0.0 <= Span(i % cols, cw) && Span(i % cols, cw) + cw <= Span(cols, cw)
  {
    SpanFits(i % cols, cols, cw);
  }

  /** The row of item `i` of `n` lies inside `ceil(n / cols)` rows of height
      `ch`. */
  lemma GridRowInside(i: nat, n: nat, cols: Pos, ch: real)
    requires i < n && cols <= 3 && ch >= 0.0
    ensures 0.0 <= Span(i / cols, ch) && Span(i / cols, ch) + ch <= Span(CeilDiv(n, cols), ch)
  {
    GridPosition(i, n, cols);
    SpanFits(i / cols, CeilDiv(n, cols), ch);
  }

  // ---------------------------------------------------------------------------
  // layout_mosaic

  function MosaicCellW(safe: SafeArea): real { safe.w as real / 3.0 }

  function MosaicCellH(safe: SafeArea, n: Pos): real { safe.h as real / CeilDiv(n, 3) as real }

  function MosaicSpec(safe: SafeArea, items: seq<string>): seq<Box> {
    if items == [] then []
    else GridSpec(items, safe.x as real, safe.y as real, MosaicCellW(safe), MosaicCellH(safe, |items|), 3, 0.0, |items|)
  }

  /** `layout_mosaic`: three columns of equal cells, as many rows as needed. */
  method LayoutMosaic(safe: SafeArea, items: seq<string>) returns (containers: seq<Box>)
    ensures containers == MosaicSpec(safe, items)
  {
    var n := |items|;
    if n == 0 {
      return [];
    }
    var cols := 3;
    CeilDivPositive(n, cols);
    var rows := CeilDiv(n, cols);
    var wCell := safe.w as real / cols as real;
    var hCell := safe.h as real / rows as real;
    containers := Grid(items, safe.x as real, safe.y as real, wCell, hCell, cols, 0.0);
  }

  /** Each item gets one cell, in order: item `i` in row `i / 3` and column
      `i % 3`, unpadded. */
  lemma MosaicCellAt(safe: SafeArea, items: seq<string>, i: nat)
    requires i < |items|
    ensures |MosaicSpec(safe, items)| == |items|
    ensures MosaicSpec(safe, items)[i]
         == MakeContainer(items[i], safe.x as real + Span(i % 3, MosaicCellW(safe)),
                          safe.y as real + Span(i / 3, MosaicCellH(safe, |items|)),
                          MosaicCellW(safe), MosaicCellH(safe, |items|))
  {
    GridAt(items, safe.x as real, safe.y as real, MosaicCellW(safe), MosaicCellH(safe, |items|), 3, 0.0, |items|);
  }

  /** The cells split the safe area into three columns and `ceil(n / 3)`
      rows: every cell lies inside it. */
  lemma MosaicCellInside(safe: SafeArea, n: Pos, i: nat)
    requires i < n && safe.w >= 0 && safe.h >= 0
    ensures 0.0 <= Span(i % 3, MosaicCellW(safe)) && Span(i % 3, MosaicCellW(safe)) + MosaicCellW(safe) <= safe.w as real
    ensures 0.0 <= Span(i / 3, MosaicCellH(safe, n)) && Span(i / 3, MosaicCellH(safe, n)) + MosaicCellH(safe, n) <= safe.h as real
  {
    CeilDivPositive(n, 3);
    GridColumnInside(i, 3, MosaicCellW(safe));
    SpanWhole(3, safe.w as real);
    GridRowInside(i, n, 3, MosaicCellH(safe, n));
    SpanWhole(CeilDiv(n, 3), safe.h as real);
  }

  // ---------------------------------------------------------------------------
  // layout_single_hero_asymmetric

  function HeroSplit(safe: SafeArea): int { Trunc(safe.w as real * 0.58) }

  function HeroGap(safe: SafeArea): int { Trunc(safe.w as real * 0.04) }

  /** The left edge and the width of the right column. */
  function RightX(safe: SafeArea): int { safe.x + HeroSplit(safe) + HeroGap(safe) }

  function RightW(safe: SafeArea): int { safe.w - HeroSplit(safe) - HeroGap(safe) }

  function AccessoryColumns(n: nat): Pos { if n >= 2 then 2 else 1 }

  /** The height unit: a support takes two, an accessory one. */
  function UnitHeight(safe: SafeArea, supports: seq<string>, accessories: seq<string>): real
    requires |supports| + |accessories| > 0
  {
    safe.h as real / (|supports| * 2 + |accessories|) as real
  }

  /** The top of the accessory band: below the stacked supports. */
  function AccessoryTop(safe: SafeArea, supports: seq<string>, accessories: seq<string>): real
    requires |supports| + |accessories| > 0
  {
    safe.y as real + Span(|supports|, UnitHeight(safe, supports, accessories) * 2.0)
  }

  function AccessoryCellW(safe: SafeArea, accessories: seq<string>): real {
    RightW(safe) as real / AccessoryColumns(|accessories|) as real
  }

  function AccessoryCellH(safe: SafeArea, supports: seq<string>, accessories: seq<string>): real
    requires accessories != []
  {
    var top := AccessoryTop(safe, supports, accessories);
    var cols := AccessoryColumns(|accessories|);
    CeilDivPositive(|accessories|, cols);
    (safe.h as real - (top - safe.y as real)) / CeilDiv(|accessories|, cols) as real
  }

  /** The accessories in a grid of two columns (one for a single accessory)
      filling the band below the supports, each cell padded by 20 px. */
  function AccessoryGrid(safe: SafeArea, supports: seq<string>, accessories: seq<string>): seq<Box>
    requires accessories != []
  {
    GridSpec(accessories, RightX(safe) as real, AccessoryTop(safe, supports, accessories), AccessoryCellW(safe, accessories),
             AccessoryCellH(safe, supports, accessories), AccessoryColumns(|accessories|), 20.0, |accessories|)
  }

  function SupportColumn(safe: SafeArea, supports: seq<string>, accessories: seq<string>): seq<Box>
    requires |supports| + |accessories| > 0
  {
    StackSpec(supports, RightX(safe) as real, safe.y as real, RightW(safe) as real,
              UnitHeight(safe, supports, accessories) * 2.0, |supports|)
  }

  /** The right column: the supports stacked two units high each, then the
      accessory grid. */
  function RightColumn(safe: SafeArea, supports: seq<string>, accessories: seq<string>): seq<Box>
    requires |supports| + |accessories| > 0
  {
    var column := SupportColumn(safe, supports, accessories);
    if accessories == [] then column else column + AccessoryGrid(safe, supports, accessories)
  }

  function HeroBox(safe: SafeArea, heroes: seq<string>): Box
    requires |heroes| >= 1
  {
    MakeContainer(heroes[0], safe.x as real, safe.y as real, HeroSplit(safe) as real, safe.h as real)
  }

  function SingleHeroSpec(safe: SafeArea, heroes: seq<string>, supports: seq<string>, accessories: seq<string>): seq<Box>
    requires |heroes| >= 1
  {
    if |supports| + |accessories| == 0 then [HeroBox(safe, heroes)]
    else [HeroBox(safe, heroes)] + RightColumn(safe, supports, accessories)
  }

  /** `layout_single_hero_asymmetric`; it reads `heroes[0]` unguarded. */
  method LayoutSingleHeroAsymmetric(safe: SafeArea, heroes: seq<string>, supports: seq<string>, accessories: seq<string>)
    returns (containers: seq<Box>)
    requires |heroes| >= 1
    ensures containers == SingleHeroSpec(safe, heroes, supports, accessories)
  {
    var splitX := Trunc(safe.w as real * 0.58);
    var gap := Trunc(safe.w as real * 0.04);
    var heroW := splitX;
    containers := [MakeContainer(heroes[0], safe.x as real, safe.y as real, heroW as real, safe.h as real)];
    var rx := safe.x + heroW + gap;
    var rw := safe.w - heroW - gap;
    var count := |supports| + |accessories|;
    if count == 0 {
      return;
    }
    var column := PlaceRightColumn(safe, rx, rw, supports, accessories);
    containers := containers + column;
  }

  /** The right column of `layout_single_hero_asymmetric`. */
  method PlaceRightColumn(safe: SafeArea, rx: int, rw: int, supports: seq<string>, accessories: seq<string>)
    returns (column: seq<Box>)
    requires rx == RightX(safe) && rw == RightW(safe) && |supports| + |accessories| > 0
    ensures column == RightColumn(safe, supports, accessories)
  {
    var totalUnits := |supports| * 2 + |accessories|;
    var unitH := safe.h as real / totalUnits as real;
    var currentY;
    column, currentY := Stack(supports, rx as real, safe.y as real, rw as real, unitH * 2.0);
    var accCount := |accessories|;
    if accCount > 0 {
      var grid := PlaceAccessories(safe, rx, rw, currentY, supports, accessories);
      column := column + grid;
    }
  }

  /** The accessory grid of `layout_single_hero_asymmetric`. */
  method PlaceAccessories(safe: SafeArea, rx: int, rw: int, currentY: real, supports: seq<string>, accessories: seq<string>)
    returns (grid: seq<Box>)
    requires rx == RightX(safe) && rw == RightW(safe) && accessories != []
    requires currentY == AccessoryTop(safe, supports, accessories)
    ensures grid == AccessoryGrid(safe, supports, accessories)
  {
    var accCount := |accessories|;
    var accH := safe.h as real - (currentY - safe.y as real);
    var cols := if accCount >= 2 then 2 else 1;
    CeilDivPositive(accCount, cols);
    var rows := CeilDiv(accCount, cols);
    var cellW := rw as real / cols as real;
    var cellH := accH / rows as real;
    grid := Grid(accessories, rx as real, currentY, cellW, cellH, cols, 20.0);
  }

  /** The hero fills the left `int(0.58 w)` at full height and comes first;
      it is alone when there is nothing else, and otherwise followed by one
      box per support and accessory. */
  lemma SingleHeroShape(safe: SafeArea, heroes: seq<string>, supports: seq<string>, accessories: seq<string>)
    requires |heroes| >= 1
    ensures var r := SingleHeroSpec(safe, heroes, supports, accessories);
      |r| == 1 + |supports| + |accessories|
      && r[0] == MakeContainer(heroes[0], safe.x as real, safe.y as real, HeroSplit(safe) as real, safe.h as real)
    ensures |supports| + |accessories| > 0 ==>
      SingleHeroSpec(safe, heroes, supports, accessories)[1..] == RightColumn(safe, supports, accessories)
  {
    if |supports| + |accessories| > 0 {
      RightColumnShape(safe, supports, accessories);
    }
  }

  /** Support `k` is stacked `2 k` height units from the top of the right
      column, two units high, and accessory `i` sits in row `i / cols` and
      column `i % cols` of the band left below, padded by 20 px: every item
      appears once, in order. */
  lemma RightColumnShape(safe: SafeArea, supports: seq<string>, accessories: seq<string>)
    requires |supports| + |accessories| > 0
    ensures var r := RightColumn(safe, supports, accessories);
      var unitH := UnitHeight(safe, supports, accessories);
      |r| == |supports| + |accessories|
      && (forall k :: 0 <= k < |supports| ==>
            r[k] == MakeContainer(supports[k], RightX(safe) as real, safe.y as real + Span(k, unitH * 2.0), RightW(safe) as real, unitH * 2.0))
      && (accessories != [] ==> forall i :: 0 <= i < |accessories| ==>
            r[|supports| + i] == GridBox(accessories[i], RightX(safe) as real, AccessoryTop(safe, supports, accessories),
                                         AccessoryCellW(safe, accessories), AccessoryCellH(safe, supports, accessories),
                                         AccessoryColumns(|accessories|), 20.0, i))
  {
    var unitH := UnitHeight(safe, supports, accessories);
    StackAt(supports, RightX(safe) as real, safe.y as real, RightW(safe) as real, unitH * 2.0, |supports|);
    if accessories != [] {
      GridAt(accessories, RightX(safe) as real, AccessoryTop(safe, supports, accessories), AccessoryCellW(safe, accessories),
             AccessoryCellH(safe, supports, accessories), AccessoryColumns(|accessories|), 20.0, |accessories|);
    }
  }

  /** The supports and the accessory band share the safe height by units:
      the supports take `2 s` of `2 s + a` units, so the band below them is
      `a` units high, and without accessories the last support ends at the
      bottom of the safe area. */
  lemma SingleHeroHeights(safe: SafeArea, supports: seq<string>, accessories: seq<string>)
    requires |supports| + |accessories| > 0
    ensures var unitH := UnitHeight(safe, supports, accessories);
      Span(|supports|, unitH * 2.0) + Span(|accessories|, unitH) == safe.h as real
  {
    var t := |supports| * 2 + |accessories|;
    var unitH := UnitHeight(safe, supports, accessories);
    SpanWhole(t, safe.h as real);
    assert Span(|supports|, unitH * 2.0) + Span(|accessories|, unitH) == Span(t, unitH);
  }

  // ---------------------------------------------------------------------------
  // layout_split_wings

  function WingWidth(safe: SafeArea): int { Trunc(safe.w as real * 0.28) }

  function WingGap(safe: SafeArea): int { Trunc(safe.w as real * 0.03) }

  function CenterWidth(safe: SafeArea): int { safe.w - WingWidth(safe) * 2 - WingGap(safe) * 2 }

  function CenterX(safe: SafeArea): int { safe.x + WingWidth(safe) + WingGap(safe) }

  /** `[i for i in center_items if i in supports]` and its companion. */
  function ValidSupports(supports: seq<string>, accessories: seq<string>): seq<string> {
    Filter(supports + accessories, (i: string) => i in supports)
  }

  function ValidAccessories(supports: seq<string>, accessories: seq<string>): seq<string> {
    Filter(supports + accessories, (i: string) => i in accessories)
  }

  /** One slot per support plus one shared by all accessories. */
  function WingSlotHeight(safe: SafeArea, validSupports: seq<string>, validAccs: seq<string>): real
    requires validSupports != [] || validAccs != []
  {
    safe.h as real / (|validSupports| + if validAccs != [] then 1 else 0) as real
  }

  function WingAccessoryH(safe: SafeArea, validSupports: seq<string>, validAccs: seq<string>): real
    requires validAccs != []
  {
    CeilDivPositive(|validAccs|, 2);
    WingSlotHeight(safe, validSupports, validAccs) / CeilDiv(|validAccs|, 2) as real
  }

  /** The accessories in a two-column grid inside the last slot. */
  function WingAccessories(safe: SafeArea, validSupports: seq<string>, validAccs: seq<string>): seq<Box>
    requires validAccs != []
  {
    var top := safe.y as real + Span(|validSupports|, WingSlotHeight(safe, validSupports, validAccs));
    GridSpec(validAccs, CenterX(safe) as real, top, CenterWidth(safe) as real / 2.0,
             WingAccessoryH(safe, validSupports, validAccs), 2, 20.0, |validAccs|)
  }

  function WingSlots(safe: SafeArea, validSupports: seq<string>, validAccs: seq<string>): seq<Box>
    requires validSupports != [] || validAccs != []
  {
    var slotH := WingSlotHeight(safe, validSupports, validAccs);
    var column := StackSpec(validSupports, CenterX(safe) as real, safe.y as real, CenterWidth(safe) as real, slotH, |validSupports|);
    if validAccs == [] then column else column + WingAccessories(safe, validSupports, validAccs)
  }

  /** Every item of a non-empty centre list is a support or an accessory. */
  lemma CenterNonEmpty(supports: seq<string>, accessories: seq<string>)
    requires supports + accessories != []
    ensures ValidSupports(supports, accessories) != [] || ValidAccessories(supports, accessories) != []
  {
    var center := supports + accessories;
    assert center[0] in ValidSupports(supports, accessories) || center[0] in ValidAccessories(supports, accessories);
  }

  function LeftWing(safe: SafeArea, heroes: seq<string>): Box
    requires |heroes| >= 1
  {
    MakeContainer(heroes[0], safe.x as real, safe.y as real, WingWidth(safe) as real, safe.h as real)
  }

  function RightWing(safe: SafeArea, heroes: seq<string>): Box
    requires |heroes| >= 2
  {
    MakeContainer(heroes[1], (safe.x + safe.w - WingWidth(safe)) as real, safe.y as real, WingWidth(safe) as real, safe.h as real)
  }

  function SplitWingsSpec(safe: SafeArea, heroes: seq<string>, supports: seq<string>, accessories: seq<string>): seq<Box>
    requires |heroes| >= 2
  {
    if supports + accessories == [] then [LeftWing(safe, heroes), RightWing(safe, heroes)]
    else
      CenterNonEmpty(supports, accessories);
      [LeftWing(safe, heroes), RightWing(safe, heroes)] + WingSlots(safe, ValidSupports(supports, accessories), ValidAccessories(supports, accessories))
  }

  /** `layout_split_wings`; it reads `heroes[0]` and `heroes[1]` unguarded. */
  method LayoutSplitWings(safe: SafeArea, heroes: seq<string>, supports: seq<string>, accessories: seq<string>)
    returns (containers: seq<Box>)
    requires |heroes| >= 2
    ensures containers == SplitWingsSpec(safe, heroes, supports, accessories)
  {
    var wHero := Trunc(safe.w as real * 0.28);
    var gap := Trunc(safe.w as real * 0.03);
    var wCenter := safe.w - (wHero * 2) - (gap * 2);
    containers := [MakeContainer(heroes[0], safe.x as real, safe.y as real, wHero as real, safe.h as real)];
    containers := containers + [MakeContainer(heroes[1], (safe.x + safe.w - wHero) as real, safe.y as real, wHero as real, safe.h as real)];
    var cx := safe.x + wHero + gap;
    var centerItems := supports + accessories;
    if centerItems == [] {
      return;
    }
    var validSupports := Filter(centerItems, (i: string) => i in supports);
    var validAccs := Filter(centerItems, (i: string) => i in accessories);
    CenterNonEmpty(supports, accessories);
    var center := PlaceCenter(safe, cx, wCenter, validSupports, validAccs);
    containers := containers + center;
  }

  /** The centre column of `layout_split_wings`. */
  method PlaceCenter(safe: SafeArea, cx: int, wCenter: int, validSupports: seq<string>, validAccs: seq<string>)
    returns (center: seq<Box>)
    requires cx == CenterX(safe) && wCenter == CenterWidth(safe)
    requires validSupports != [] || validAccs != []
    ensures center == WingSlots(safe, validSupports, validAccs)
  {
    var slotsCount := |validSupports| + (if validAccs != [] then 1 else 0);
    var slotH := safe.h as real / slotsCount as real;
    var currentY;
    center, currentY := Stack(validSupports, cx as real, safe.y as real, wCenter as real, slotH);
    if validAccs != [] {
      CeilDivPositive(|validAccs|, 2);
      var accRows := CeilDiv(|validAccs|, 2);
      var accH := slotH / accRows as real;
      var accW := wCenter as real / 2.0;
      var grid := Grid(validAccs, cx as real, currentY, accW, accH, 2, 20.0);
      center := center + grid;
    }
  }

  /** The two heroes are `int(0.28 w)` wide at full height, one flush with
      the left edge of the safe area and one with its right edge; between
      them, with a gap on each side, the centre takes the rest of the width.
      Without supports or accessories the heroes are all there is. */
  lemma SplitWingsFrame(safe: SafeArea, heroes: seq<string>, supports: seq<string>, accessories: seq<string>)
    requires |heroes| >= 2
    ensures var r := SplitWingsSpec(safe, heroes, supports, accessories);
      |r| >= 2
      && r[0].id == Some(heroes[0]) && r[0].x == Some(safe.x) && r[0].y == Some(safe.y)
      && r[0].w == Some(WingWidth(safe)) && r[0].h == Some(safe.h)
      && r[1].id == Some(heroes[1]) && r[1].x == Some(safe.x + safe.w - WingWidth(safe)) && r[1].y == Some(safe.y)
      && r[1].w == Some(WingWidth(safe)) && r[1].h == Some(safe.h)
    ensures WingWidth(safe) + WingGap(safe) + CenterWidth(safe) + WingGap(safe) + WingWidth(safe) == safe.w
    ensures CenterX(safe) + CenterWidth(safe) + WingGap(safe) == safe.x + safe.w - WingWidth(safe)
    ensures supports + accessories == [] ==> |SplitWingsSpec(safe, heroes, supports, accessories)| == 2
  {
    WingBoxes(safe, heroes);
    if supports + accessories != [] {
      CenterNonEmpty(supports, accessories);
    }
  }

  lemma WingBoxes(safe: SafeArea, heroes: seq<string>)
    requires |heroes| >= 2
    ensures var l, r := LeftWing(safe, heroes), RightWing(safe, heroes);
      l.id == Some(heroes[0]) && l.x == Some(safe.x) && l.y == Some(safe.y)
      && l.w == Some(WingWidth(safe)) && l.h == Some(safe.h)
      && r.id == Some(heroes[1]) && r.x == Some(safe.x + safe.w - WingWidth(safe)) && r.y == Some(safe.y)
      && r.w == Some(WingWidth(safe)) && r.h == Some(safe.h)
  {
    TruncOfInt(safe.x);
    TruncOfInt(safe.y);
    TruncOfInt(safe.h);
    TruncOfInt(safe.x + safe.w - WingWidth(safe));
    TruncOfInt(WingWidth(safe));
  }

  /** All accessories share the last slot of the centre column: with `s`
      supports in `s + 1` slots, the accessory rows start below the supports,
      stay inside the slot, and the slot ends at the bottom of the safe
      area. */
  lemma SplitWingsAccessorySlot(safe: SafeArea, validSupports: seq<string>, validAccs: seq<string>, i: nat)
    requires validAccs != [] && i < |validAccs| && safe.h >= 0
    ensures var slotH := WingSlotHeight(safe, validSupports, validAccs);
      var accH := WingAccessoryH(safe, validSupports, validAccs);
      0.0 <= Span(i / 2, accH) && Span(i / 2, accH) + accH <= slotH
      && Span(|validSupports|, slotH) + slotH == safe.h as real
  {
    CeilDivPositive(|validAccs|, 2);
    var slotH := WingSlotHeight(safe, validSupports, validAccs);
    SpanWhole(|validSupports| + 1, safe.h as real);
    SpanStep(|validSupports|, slotH);
    GridRowInside(i, |validAccs|, 2, WingAccessoryH(safe, validSupports, validAccs));
    SpanWhole(CeilDiv(|validAccs|, 2), slotH);
  }

  /** With something in the centre, the result is the two wings followed by
      the centre column. */
  lemma CenterColumnIds(safe: SafeArea, heroes: seq<string>, supports: seq<string>, accessories: seq<string>)
    requires |heroes| >= 2 && supports + accessories != []
    ensures var vs, va := ValidSupports(supports, accessories), ValidAccessories(supports, accessories);
      var r := SplitWingsSpec(safe, heroes, supports, accessories);
      (vs != [] || va != [])
      && |r| == 2 + |vs| + |va|
      && r[..2] == [LeftWing(safe, heroes), RightWing(safe, heroes)]
      && r[2..] == WingSlots(safe, vs, va)
  {
    var vs, va := ValidSupports(supports, accessories), ValidAccessories(supports, accessories);
    CenterNonEmpty(supports, accessories);
    WingSlotIds(safe, vs, va);
  }

  /** The centre holds the supports and then the accessories, each list in
      the order of `supports + accessories`. */
  lemma WingSlotIds(safe: SafeArea, vs: seq<string>, va: seq<string>)
    requires vs != [] || va != []
    ensures var r := WingSlots(safe, vs, va);
      |r| == |vs| + |va|
      && (forall k :: 0 <= k < |vs| ==> r[k].id == Some(vs[k]))
      && (forall i :: 0 <= i < |va| ==> r[|vs| + i].id == Some(va[i]))
  {
    var slotH := WingSlotHeight(safe, vs, va);
    StackAt(vs, CenterX(safe) as real, safe.y as real, CenterWidth(safe) as real, slotH, |vs|);
    if va != [] {
      var top := safe.y as real + Span(|vs|, slotH);
      GridAt(va, CenterX(safe) as real, top, CenterWidth(safe) as real / 2.0, WingAccessoryH(safe, vs, va), 2, 20.0, |va|);
    }
  }
}
