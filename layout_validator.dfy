/** `LayoutValidator` (engine/layout_validator.py): two error-collecting
    checks. The tree check compares the slots of a layout tree with the
    inventory, propagates each slot's share of the canvas through the splits,
    and rejects narrow or grid-placed heroes. The container check applies
    per-role minimum widths to the solver's output. Each check is a method
    proved equal to a specification function, and the lemmas characterise
    when each function reports nothing. */
module Validator {
  import opened Common
  import opened LayoutTree

  datatype TreeError =
    | MissingProducts(missing: set<string>)
    | UnknownProducts(unknown: set<Option<string>>)
    | CountMismatch(slotCount: int, itemCount: int)
    | HeroTooNarrow(id: string, widthPercent: real)
    | HeroInGrid(id: string)

  datatype ContainerError =
    | BelowMinimum(id: string, role: string, width: int, minimum: int)
    | MissingInContainers(missing: set<string>)

  datatype ContainerWarning = VerySmall(id: string, w: int, h: int)

  /** What `validate_layout_tree` produces: the ZeroDivisionError it raises
      on a zero divisor, or its `(is_valid, errors, warnings)` triple. */
  datatype TreeOutcome =
    | ZeroDivisionError
    | Checked(isValid: bool, errors: seq<TreeError>, warnings: seq<string>)

  /** The share of the canvas width and height a slot receives. */
  datatype Share = Share(widthPct: real, heightPct: real)

  /** One row of the size-constraint table. */
  datatype Constraint = Constraint(minWidthPct: int, minWidthPx: int)

  const SizeConstraints: map<string, Constraint> := map[
    "hero" := Constraint(30, 1400),
    "support_large" := Constraint(15, 700),
    "support_medium" := Constraint(10, 500),
    "accessory" := Constraint(5, 250),
    "default" := Constraint(8, 400)
  ]

  const MinSlotSize: int := 400
  const MinHeroPercent: real := 30.0

  predicate IsHero(id: string) {
    Contains(Lower(id), "hero")
  }

  /** The row of the table an id falls under, matched in priority order:
      "hero", then "support" (split on "large"), then "accessory". */
  function ConstraintRow(id: string): (row: string)
    ensures row in SizeConstraints
  {
    var l := Lower(id);
    if Contains(l, "hero") then "hero"
    else if Contains(l, "support") then (if Contains(l, "large") then "support_large" else "support_medium")
    else if Contains(l, "accessory") then "accessory"
    else "default"
  }

  /** `_get_size_constraint(id)["min_width_px"]`. */
  function MinWidthPx(id: string): int {
    SizeConstraints[ConstraintRow(id)].minWidthPx
  }

  /** The minimum width follows the priority hero > large support > other
      support > accessory; ids matching none of them need 400 pixels, and a
      hero's minimum is the largest of all. */
  lemma MinWidthPriority(id: string)
    ensures IsHero(id) <==> MinWidthPx(id) == 1400
    ensures !IsHero(id) && Contains(Lower(id), "support") ==>
      MinWidthPx(id) == (if Contains(Lower(id), "large") then 700 else 500)
    ensures !IsHero(id) && !Contains(Lower(id), "support") ==>
      MinWidthPx(id) == (if Contains(Lower(id), "accessory") then 250 else 400)
    ensures 250 <= MinWidthPx(id) <= 1400
  {
  }

  /** The role printed with a below-minimum error: the text before the first
      underscore, or "product" for an id without one. */
  function RoleLabel(id: string): string {
    if '_' in id then TakeUntil(id, '_') else "product"
  }

  /** The row count of a grid with `n` items: `(n + columns - 1) // columns`,
      floored also for a negative column count. */
  function GridRows(n: int, columns: int): int
    requires columns != 0
  {
    FloorDiv(n + columns - 1, columns)
  }

  /** `_calculate_slot_percentages` finishes without ZeroDivisionError: every
      split it reaches divides its gap by the canvas width, and every grid
      with items divides by its column count and by its floored row count.
      A negative column count passes when the row count is not 0. */
  predicate DivisionSafe(n: Option<Node>, canvasWidth: int) {
    match n
    case Some(Split(_, _, _, f, s)) =>
      canvasWidth != 0 && DivisionSafe(f, canvasWidth) && DivisionSafe(s, canvasWidth)
    case Some(Grid(c, _, items)) =>
      items == [] || (GridColumns(c) != 0 && GridRows(|items|, GridColumns(c)) != 0)
    case _ => true
  }

  /** For a positive column count the floored row count is the ceiling of
      the quotient. */
  lemma GridRowsPositive(n: int, columns: int)
    requires columns >= 1
    ensures GridRows(n, columns) == CeilDiv(n, columns)
  {
  }

  /** Positive column counts and a non-zero canvas width rule out every
      division by zero. */
  lemma {:induction false} PositiveGridsDivisionSafe(n: Option<Node>, canvasWidth: int)
    requires PositiveGrids(n) && canvasWidth != 0
    ensures DivisionSafe(n, canvasWidth)
  {
    match n
    case Some(Split(_, _, _, f, s)) =>
      PositiveGridsDivisionSafe(f, canvasWidth);
      PositiveGridsDivisionSafe(s, canvasWidth);
    case Some(Grid(c, _, items)) =>
      if items != [] {
        GridRowsPositive(|items|, GridColumns(c));
        CeilDivPositive(|items|, GridColumns(c));
      }
    case _ =>
  }

  /** `_calculate_slot_percentages`: the share of the canvas each slot id
      receives, starting from `(w, h)`. A split takes half the gap (as a
      fraction of the canvas width) off each side; a grid divides the share
      evenly among its items; when both children of a split list an id, the
      second child's share wins. A negative column count gives negative
      shares. */
  function Percentages(n: Option<Node>, w: real, h: real, canvasWidth: int): map<string, Share>
    requires DivisionSafe(n, canvasWidth)
  {
    match n
    case None => map[]
    case Some(Slot(id, _)) => if Truthy(id) then map[id.value := Share(w, h)] else map[]
    case Some(Split(d, r, g, f, s)) =>
      var ratio := SplitRatio(r);
      var gapPct := GapFraction(g, canvasWidth);
      if IsHorizontal(d) then
        Percentages(f, FirstShare(w, ratio, gapPct), h, canvasWidth)
        + Percentages(s, SecondShare(w, ratio, gapPct), h, canvasWidth)
      else
        Percentages(f, w, FirstShare(h, ratio, gapPct), canvasWidth)
        + Percentages(s, w, SecondShare(h, ratio, gapPct), canvasWidth)
    case Some(Grid(c, _, items)) =>
      if items == [] then map[]
      else
        var cols := GridColumns(c);
        var rows := GridRows(|items|, cols);
        map k | k in items :: Share(w / cols as real, h / rows as real)
    case Some(_) => map[]
  }

  /** A split's gap as a fraction of the canvas width. */
  function GapFraction(gap: Option<int>, canvasWidth: int): real
    requires canvasWidth != 0
  {
    SplitGap(gap) as real / canvasWidth as real
  }

  /** The first child's share of a split side: `ratio` of it, less half the gap. */
  function FirstShare(side: real, ratio: real, gapPct: real): real {
    side * ratio - gapPct / 2.0
  }

  /** The second child's share of a split side: the rest, less half the gap. */
  function SecondShare(side: real, ratio: real, gapPct: real): real {
    side * (1.0 - ratio) - gapPct / 2.0
  }

  /** The inventory ids (in inventory order) that contain "hero". */
  function HeroKeys(keys: seq<string>): (r: seq<string>)
    ensures forall k :: k in r <==> k in keys && IsHero(k)
  {
    if keys == [] then []
    else HeroKeys(keys[..|keys| - 1]) + (if IsHero(keys[|keys| - 1]) then [keys[|keys| - 1]] else [])
  }

  /** The hero-width errors for the given inventory ids, in their order. */
  function HeroWidthErrors(keys: seq<string>, pct: map<string, Share>): seq<TreeError> {
    if keys == [] then []
    else
      var k := keys[|keys| - 1];
      HeroWidthErrors(keys[..|keys| - 1], pct)
      + (if IsHero(k) && k in pct && pct[k].widthPct * 100.0 < MinHeroPercent
         then [HeroTooNarrow(k, pct[k].widthPct * 100.0)] else [])
  }

  /** One error per hero of `heroes` that occurs in the grid's items. */
  function GridHeroErrors(items: seq<string>, heroes: seq<string>): seq<TreeError> {
    if heroes == [] then []
    else
      GridHeroErrors(items, heroes[..|heroes| - 1])
      + (if heroes[|heroes| - 1] in items then [HeroInGrid(heroes[|heroes| - 1])] else [])
  }

  /** `_check_hero_slots`: one error per (grid, hero) pair with the hero in the grid. */
  function HeroGridErrors(grids: seq<seq<string>>, heroes: seq<string>): seq<TreeError> {
    if grids == [] then []
    else HeroGridErrors(grids[..|grids| - 1], heroes) + GridHeroErrors(grids[|grids| - 1], heroes)
  }

  /** The inventory ids the tree does not list. */
  function MissingIds(slots: seq<Option<string>>, keys: seq<string>): set<string> {
    set k | k in keys && Some(k) !in slots
  }

  /** The tree's slot ids that are not inventory ids (a slot without an id included). */
  function UnknownIds(slots: seq<Option<string>>, keys: seq<string>): set<Option<string>> {
    set s | s in slots && !(s.Some? && s.value in keys)
  }

  /** The three checks of the slot list against the inventory, each reported
      on its own. */
  function InventoryErrors(slots: seq<Option<string>>, keys: seq<string>): seq<TreeError> {
    var missing := MissingIds(slots, keys);
    var unknown := UnknownIds(slots, keys);
    (if missing != {} then [MissingProducts(missing)] else [])
    + (if unknown != {} then [UnknownProducts(unknown)] else [])
    + (if |slots| != |keys| then [CountMismatch(|slots|, |keys|)] else [])
  }

  /** Everything `validate_layout_tree` reports, in the order it reports it. */
  function TreeErrors(tree: Option<Node>, keys: seq<string>, canvasWidth: int): seq<TreeError>
    requires DivisionSafe(tree, canvasWidth)
  {
    InventoryErrors(Slots(tree), keys)
    + HeroWidthErrors(keys, Percentages(tree, 1.0, 1.0, canvasWidth))
    + HeroGridErrors(Grids(tree), HeroKeys(keys))
  }

  /** The below-minimum errors of a list of containers, in list order. */
  function WidthErrors(cs: seq<Container>): seq<ContainerError> {
    if cs == [] then []
    else
      var c := cs[|cs| - 1];
      WidthErrors(cs[..|cs| - 1])
      + (if c.w < MinWidthPx(c.id) then [BelowMinimum(c.id, RoleLabel(c.id), c.w, MinWidthPx(c.id))] else [])
  }

  function SmallWarnings(cs: seq<Container>): seq<ContainerWarning> {
    if cs == [] then []
    else
      var c := cs[|cs| - 1];
      SmallWarnings(cs[..|cs| - 1])
      + (if c.w < MinSlotSize || c.h < MinSlotSize then [VerySmall(c.id, c.w, c.h)] else [])
  }

  /** The inventory ids no container carries. */
  function UncoveredIds(cs: seq<Container>, keys: seq<string>): set<string> {
    set k | k in keys && forall c | c in cs :: c.id != k
  }

  /** Everything `validate_containers` reports as an error. */
  function ContainerErrors(cs: seq<Container>, keys: seq<string>): seq<ContainerError> {
    var missing := UncoveredIds(cs, keys);
    WidthErrors(cs) + (if missing != {} then [MissingInContainers(missing)] else [])
  }

  class LayoutValidator {
    const canvasWidth: int
    const canvasHeight: int

    /** The canvas defaults to 4961 x 3508 pixels. */
    constructor(canvasWidth: Option<int>, canvasHeight: Option<int>)
      ensures this.canvasWidth == canvasWidth.GetOr(4961)
      ensures this.canvasHeight == canvasHeight.GetOr(3508)
    {
      this.canvasWidth := canvasWidth.GetOr(4961);
      this.canvasHeight := canvasHeight.GetOr(3508);
    }

    /** `validate_layout_tree`: ZeroDivisionError exactly when the share
        computation meets a zero divisor; otherwise the errors of `TreeErrors`,
        valid exactly when there are none, and never a warning. */
    method ValidateLayoutTree(tree: Option<Node>, keys: seq<string>) returns (r: TreeOutcome)
      ensures r.ZeroDivisionError? <==> !DivisionSafe(tree, canvasWidth)
      ensures r.Checked? ==> r.errors == TreeErrors(tree, keys, canvasWidth)
      ensures r.Checked? ==> (r.isValid <==> r.errors == [])
      ensures r.Checked? ==> r.warnings == []
    {
      var errors: seq<TreeError> := [];
      var warnings: seq<string> := [];
      var allSlots := Slots(tree);
      var missing := MissingIds(allSlots, keys);
      var extra := UnknownIds(allSlots, keys);
      if missing != {} {
        errors := errors + [MissingProducts(missing)];
      }
      if extra != {} {
        errors := errors + [UnknownProducts(extra)];
      }
      if |allSlots| != |keys| {
        errors := errors + [CountMismatch(|allSlots|, |keys|)];
      }
      assert errors == InventoryErrors(allSlots, keys);
      if !DivisionSafe(tree, canvasWidth) {
        return ZeroDivisionError;
      }
      var pct := Percentages(tree, 1.0, 1.0, canvasWidth);
      var widthErrors := CheckHeroWidths(keys, pct);
      errors := errors + widthErrors;
      var heroViolations := CheckHeroSlots(tree, keys);
      errors := errors + heroViolations;
      r := Checked(|errors| == 0, errors, warnings);
    }

    /** The loop of `validate_layout_tree` over the inventory: a hero whose
        slot is narrower than the minimum share of the canvas is reported. */
    method CheckHeroWidths(keys: seq<string>, pct: map<string, Share>) returns (errors: seq<TreeError>)
      ensures errors == HeroWidthErrors(keys, pct)
    {
      errors := [];
      var i := 0;
      while i < |keys|
        invariant 0 <= i <= |keys|
        invariant errors == HeroWidthErrors(keys[..i], pct)
      {
        var id := keys[i];
        if IsHero(id) && id in pct {
          var widthPct := pct[id].widthPct * 100.0;
          if widthPct < MinHeroPercent {
            errors := errors + [HeroTooNarrow(id, widthPct)];
          }
        }
        assert keys[..i + 1][..i] == keys[..i];
        i := i + 1;
      }
      assert keys[..|keys|] == keys;
    }

    /** `_check_hero_slots`: for each grid, then each hero, an error when the
        hero is among the grid's items. */
    method CheckHeroSlots(tree: Option<Node>, keys: seq<string>) returns (errors: seq<TreeError>)
      ensures errors == HeroGridErrors(Grids(tree), HeroKeys(keys))
    {
      var heroes := HeroKeys(keys);
      errors := [];
      var grids := Grids(tree);
      if heroes == [] {
        HeroGridErrorsNoHeroes(grids);
        return;
      }
      for g := 0 to |grids|
        invariant errors == HeroGridErrors(grids[..g], heroes)
      {
        var found := CheckGridHeroes(grids[g], heroes);
        errors := errors + found;
        assert grids[..g + 1][..g] == grids[..g];
      }
      assert grids[..|grids|] == grids;
    }

    /** The inner loop of `_check_hero_slots`: an error for each hero among
        the grid's items, in hero order. */
    method CheckGridHeroes(items: seq<string>, heroes: seq<string>) returns (errors: seq<TreeError>)
      ensures errors == GridHeroErrors(items, heroes)
    {
      errors := [];
      for j := 0 to |heroes|
        invariant errors == GridHeroErrors(items, heroes[..j])
      {
        if heroes[j] in items {
          errors := errors + [HeroInGrid(heroes[j])];
        }
        assert heroes[..j + 1][..j] == heroes[..j];
      }
      assert heroes[..|heroes|] == heroes;
    }

    /** `validate_containers`: below-minimum widths and uncovered inventory
        ids are errors, small containers only warnings; valid exactly when
        there is no error. */
    method ValidateContainers(cs: seq<Container>, keys: seq<string>)
      returns (isValid: bool, errors: seq<ContainerError>, warnings: seq<ContainerWarning>)
      ensures errors == ContainerErrors(cs, keys)
      ensures warnings == SmallWarnings(cs)
      ensures isValid <==> errors == []
    {
      errors := [];
      warnings := [];
      var i := 0;
      while i < |cs|
        invariant 0 <= i <= |cs|
        invariant errors == WidthErrors(cs[..i])
        invariant warnings == SmallWarnings(cs[..i])
      {
        var c := cs[i];
        var minWidth := MinWidthPx(c.id);
        if c.w < MinSlotSize || c.h < MinSlotSize {
          warnings := warnings + [VerySmall(c.id, c.w, c.h)];
        }
        if c.w < minWidth {
          errors := errors + [BelowMinimum(c.id, RoleLabel(c.id), c.w, minWidth)];
        }
        assert cs[..i + 1][..i] == cs[..i];
        i := i + 1;
      }
      assert cs[..|cs|] == cs;
      var missing := UncoveredIds(cs, keys);
      if missing != {} {
        errors := errors + [MissingInContainers(missing)];
      }
      isValid := |errors| == 0;
    }
  }

  lemma HeroGridErrorsNoHeroes(grids: seq<seq<string>>)
    ensures HeroGridErrors(grids, []) == []
  {
    if grids != [] {
      HeroGridErrorsNoHeroes(grids[..|grids| - 1]);
    }
  }

  // ----- What the tree check reports -----

  lemma {:induction false} HeroWidthErrorsEmpty(keys: seq<string>, pct: map<string, Share>)
    ensures HeroWidthErrors(keys, pct) == [] <==>
      forall k | k in keys && IsHero(k) && k in pct :: pct[k].widthPct * 100.0 >= MinHeroPercent
  {
    if keys != [] {
      var init := keys[..|keys| - 1];
      HeroWidthErrorsEmpty(init, pct);
      assert forall k :: k in keys <==> k in init || k == keys[|keys| - 1];
    }
  }

  lemma {:induction false} HeroWidthErrorsAre(keys: seq<string>, pct: map<string, Share>, e: TreeError)
    requires e in HeroWidthErrors(keys, pct)
    ensures e.HeroTooNarrow? && e.id in keys && IsHero(e.id) && e.id in pct
    ensures e.widthPercent == pct[e.id].widthPct * 100.0 && e.widthPercent < MinHeroPercent
  {
    var init := keys[..|keys| - 1];
    if e in HeroWidthErrors(init, pct) {
      HeroWidthErrorsAre(init, pct, e);
    }
  }

  lemma {:induction false} GridHeroErrorsIff(items: seq<string>, heroes: seq<string>, e: TreeError)
    ensures e in GridHeroErrors(items, heroes) <==> e.HeroInGrid? && e.id in heroes && e.id in items
  {
    if heroes != [] {
      var init := heroes[..|heroes| - 1];
      GridHeroErrorsIff(items, init, e);
      assert forall k :: k in heroes <==> k in init || k == heroes[|heroes| - 1];
    }
  }

  lemma {:induction false} HeroGridErrorsIff(grids: seq<seq<string>>, heroes: seq<string>, e: TreeError)
    ensures e in HeroGridErrors(grids, heroes) <==>
      e.HeroInGrid? && e.id in heroes && exists g | g in grids :: e.id in g
  {
    if grids != [] {
      var init := grids[..|grids| - 1];
      var last := grids[|grids| - 1];
      HeroGridErrorsIff(init, heroes, e);
      GridHeroErrorsIff(last, heroes, e);
      assert forall g :: g in grids <==> g in init || g == last;
    }
  }

  /** A hero-in-grid error names exactly an inventory hero that some grid of
      the tree (reached through splits) lists among its items. */
  lemma HeroInGridReported(tree: Option<Node>, keys: seq<string>, canvasWidth: int, id: string)
    requires DivisionSafe(tree, canvasWidth)
    ensures HeroInGrid(id) in TreeErrors(tree, keys, canvasWidth) <==>
      id in keys && IsHero(id) && exists g | g in Grids(tree) :: id in g
  {
    var e := HeroInGrid(id);
    var pct := Percentages(tree, 1.0, 1.0, canvasWidth);
    HeroGridErrorsIff(Grids(tree), HeroKeys(keys), e);
    if e in HeroWidthErrors(keys, pct) {
      HeroWidthErrorsAre(keys, pct, e);
    }
  }

  /** A hero is only checked for width when the tree gives it a truthy slot or
      a grid cell: heroes absent from the tree draw no width error. */
  lemma NarrowHeroIsPlaced(tree: Option<Node>, keys: seq<string>, canvasWidth: int, e: TreeError)
    requires DivisionSafe(tree, canvasWidth)
    requires e in TreeErrors(tree, keys, canvasWidth) && e.HeroTooNarrow?
    ensures e.id in keys && IsHero(e.id) && Some(e.id) in Slots(tree)
    ensures e.widthPercent < MinHeroPercent
  {
    var pct := Percentages(tree, 1.0, 1.0, canvasWidth);
    if e in HeroGridErrors(Grids(tree), HeroKeys(keys)) {
      HeroGridErrorsIff(Grids(tree), HeroKeys(keys), e);
    } else {
      HeroWidthErrorsAre(keys, pct, e);
      PercentagesDomain(tree, 1.0, 1.0, canvasWidth);
    }
  }

  /** With an inventory of distinct ids, the tree check passes exactly when the
      tree lists every inventory id exactly once and nothing else, every hero
      the tree places gets at least 30% of the canvas width, and no hero sits
      in a grid. */
  lemma TreeValidIff(tree: Option<Node>, keys: seq<string>, canvasWidth: int)
    requires DivisionSafe(tree, canvasWidth) && NoDup(keys)
    ensures TreeErrors(tree, keys, canvasWidth) == [] <==>
      multiset(Slots(tree)) == multiset(Lift(keys))
      && (forall k | k in keys && IsHero(k) && k in Percentages(tree, 1.0, 1.0, canvasWidth) ::
            Percentages(tree, 1.0, 1.0, canvasWidth)[k].widthPct * 100.0 >= MinHeroPercent)
      && (forall k, g | k in keys && IsHero(k) && g in Grids(tree) :: k !in g)
  {
    var slots := Slots(tree);
    var pct := Percentages(tree, 1.0, 1.0, canvasWidth);
    var grids := Grids(tree);
    HeroWidthErrorsEmpty(keys, pct);
    HeroGridErrorsEmpty(grids, keys);
    InventoryErrorsEmpty(slots, keys);
    assert TreeErrors(tree, keys, canvasWidth)
        == InventoryErrors(slots, keys) + HeroWidthErrors(keys, pct) + HeroGridErrors(grids, HeroKeys(keys));
  }

  lemma HeroGridErrorsEmpty(grids: seq<seq<string>>, keys: seq<string>)
    ensures HeroGridErrors(grids, HeroKeys(keys)) == [] <==>
      forall k, g | k in keys && IsHero(k) && g in grids :: k !in g
  {
    var errs := HeroGridErrors(grids, HeroKeys(keys));
    if exists k, g :: k in keys && IsHero(k) && g in grids && k in g {
      var k, g :| k in keys && IsHero(k) && g in grids && k in g;
      HeroGridErrorsIff(grids, HeroKeys(keys), HeroInGrid(k));
    }
    if errs != [] {
      HeroGridErrorsIff(grids, HeroKeys(keys), errs[0]);
    }
  }

  lemma InventoryErrorsEmpty(slots: seq<Option<string>>, keys: seq<string>)
    requires NoDup(keys)
    ensures InventoryErrors(slots, keys) == [] <==> multiset(slots) == multiset(Lift(keys))
  {
    SlotsMatchInventory(slots, keys);
  }

  lemma LiftMembers(keys: seq<string>)
    ensures forall s :: s in Lift(keys) <==> s.Some? && s.value in keys
    ensures NoDup(keys) ==> NoDup(Lift(keys))
  {
    forall s ensures s in Lift(keys) <==> s.Some? && s.value in keys {
      if s.Some? && s.value in keys {
        var i :| 0 <= i < |keys| && keys[i] == s.value;
        assert Lift(keys)[i] == s;
      }
    }
  }

  /** The three inventory checks together say the slot list is a permutation
      of the inventory ids. */
  lemma SlotsMatchInventory(slots: seq<Option<string>>, keys: seq<string>)
    requires NoDup(keys)
    ensures (MissingIds(slots, keys) == {} && UnknownIds(slots, keys) == {} && |slots| == |keys|)
        <==> multiset(slots) == multiset(Lift(keys))
  {
    var lk := Lift(keys);
    LiftMembers(keys);
    ElementsCard(lk);
    ElementsCard(slots);
    if MissingIds(slots, keys) == {} && UnknownIds(slots, keys) == {} && |slots| == |keys| {
      forall s ensures s in slots <==> s in lk {
        if s in slots {
          assert s !in UnknownIds(slots, keys);
        }
        if s in lk {
          assert s.value !in MissingIds(slots, keys);
        }
      }
      assert Elements(slots) == Elements(lk);
      SameElementsPermutation(slots, lk);
    }
    if multiset(slots) == multiset(lk) {
      forall s ensures s in slots <==> s in lk {
        assert s in slots <==> s in multiset(slots);
        assert s in lk <==> s in multiset(lk);
      }
      assert |slots| == |multiset(slots)| == |multiset(lk)| == |lk|;
    }
  }

  /** A duplicated slot id is reported as a count mismatch even when the tree
      and the inventory hold the same set of ids: the missing and unknown
      checks then stay silent. */
  lemma DuplicateIsCountMismatch(tree: Option<Node>, keys: seq<string>, canvasWidth: int)
    requires DivisionSafe(tree, canvasWidth) && NoDup(keys)
    requires Elements(Slots(tree)) == Elements(Lift(keys)) && !NoDup(Slots(tree))
    ensures CountMismatch(|Slots(tree)|, |keys|) in TreeErrors(tree, keys, canvasWidth)
    ensures MissingIds(Slots(tree), keys) == {} && UnknownIds(Slots(tree), keys) == {}
  {
    var slots := Slots(tree);
    LiftMembers(keys);
    ElementsCard(slots);
    ElementsCard(Lift(keys));
    assert |slots| != |keys|;
    forall k | k in keys ensures Some(k) in slots {
      assert Some(k) in Elements(Lift(keys));
    }
    forall s | s in slots ensures s.Some? && s.value in keys {
      assert s in Elements(Lift(keys));
    }
    assert MissingIds(slots, keys) == {};
    assert UnknownIds(slots, keys) == {};
    assert InventoryErrors(slots, keys) == [CountMismatch(|slots|, |keys|)];
    assert TreeErrors(tree, keys, canvasWidth)[0] == CountMismatch(|slots|, |keys|);
  }

  // ----- Width propagation -----

  /** The ids with a share are exactly the truthy slot ids and the grid items
      of the tree. */
  lemma {:induction false} PercentagesDomain(n: Option<Node>, w: real, h: real, canvasWidth: int)
    requires DivisionSafe(n, canvasWidth)
    ensures forall k :: k in Percentages(n, w, h, canvasWidth) ==> Some(k) in Slots(n)
    ensures forall k :: k != "" && Some(k) in Slots(n) ==> k in Percentages(n, w, h, canvasWidth)
  {
    match n
    case None =>
    case Some(Split(d, r, g, f, s)) =>
      var ratio := SplitRatio(r);
      var gapPct := GapFraction(g, canvasWidth);
      var w1, h1, w2, h2 := w, h, w, h;
      if IsHorizontal(d) {
        w1, w2 := FirstShare(w, ratio, gapPct), SecondShare(w, ratio, gapPct);
      } else {
        h1, h2 := FirstShare(h, ratio, gapPct), SecondShare(h, ratio, gapPct);
      }
      var m1 := Percentages(f, w1, h1, canvasWidth);
      var m2 := Percentages(s, w2, h2, canvasWidth);
      PercentagesDomain(f, w1, h1, canvasWidth);
      PercentagesDomain(s, w2, h2, canvasWidth);
      assert Percentages(n, w, h, canvasWidth) == m1 + m2;
      assert Slots(n) == Slots(f) + Slots(s);
    case Some(Grid(_, _, items)) =>
      if items != [] {
        LiftMembers(items);
      }
    case Some(_) =>
  }

  /** Every split ratio lies in [0, 1] and every split gap is non-negative. */
  predicate Proportional(n: Option<Node>) {
    match n
    case Some(Split(_, r, g, f, s)) =>
      0.0 <= SplitRatio(r) <= 1.0 && 0 <= SplitGap(g) && Proportional(f) && Proportional(s)
    case _ => true
  }

  function Max0(x: real): real { if x >= 0.0 then x else 0.0 }

  lemma ShareShrinks(side: real, ratio: real, gapPct: real)
    requires 0.0 <= ratio <= 1.0 && 0.0 <= gapPct
    ensures Max0(FirstShare(side, ratio, gapPct)) <= Max0(side)
    ensures Max0(SecondShare(side, ratio, gapPct)) <= Max0(side)
  {
    if side >= 0.0 {
      MulMonotone(side, ratio, 1.0);
      MulMonotone(side, 1.0 - ratio, 1.0);
      MulNonneg(side, ratio);
      assert FirstShare(side, ratio, gapPct) <= side;
      assert SecondShare(side, ratio, gapPct) <= side;
    } else {
      MulNonneg(-side, ratio);
      MulNonneg(-side, 1.0 - ratio);
      assert (-side) * ratio == -(side * ratio);
      assert (-side) * (1.0 - ratio) == -(side * (1.0 - ratio));
    }
  }

  lemma ShareDivides(w: real, n: int)
    requires n >= 1
    ensures w / n as real <= Max0(w)
  {
    if w >= 0.0 {
      assert w / n as real * n as real == w;
      assert w / n as real * 1.0 <= w / n as real * n as real;
    }
  }

  /** Every share in `m` is within `(bw, bh)`. */
  predicate Within(m: map<string, Share>, bw: real, bh: real) {
    forall k | k in m :: m[k].widthPct <= bw && m[k].heightPct <= bh
  }

  /** With ratios in [0, 1], non-negative gaps and a positive canvas width,
      nesting only ever shrinks a share: no slot gets more of the canvas than
      the node it sits in. */
  lemma {:induction false} PercentagesBounded(n: Option<Node>, w: real, h: real, canvasWidth: int)
    requires PositiveGrids(n) && DivisionSafe(n, canvasWidth) && canvasWidth > 0 && Proportional(n)
    ensures Within(Percentages(n, w, h, canvasWidth), Max0(w), Max0(h))
  {
    match n
    case None =>
    case Some(Split(d, r, g, f, s)) =>
      var ratio := SplitRatio(r);
      var gapPct := GapFraction(g, canvasWidth);
      assert 0.0 <= gapPct;
      var w1, h1, w2, h2 := w, h, w, h;
      if IsHorizontal(d) {
        w1, w2 := FirstShare(w, ratio, gapPct), SecondShare(w, ratio, gapPct);
        ShareShrinks(w, ratio, gapPct);
      } else {
        h1, h2 := FirstShare(h, ratio, gapPct), SecondShare(h, ratio, gapPct);
        ShareShrinks(h, ratio, gapPct);
      }
      var m1 := Percentages(f, w1, h1, canvasWidth);
      var m2 := Percentages(s, w2, h2, canvasWidth);
      PercentagesBounded(f, w1, h1, canvasWidth);
      PercentagesBounded(s, w2, h2, canvasWidth);
      WithinUnion(m1, m2, Max0(w1), Max0(h1), Max0(w2), Max0(h2), Max0(w), Max0(h));
      assert Percentages(n, w, h, canvasWidth) == m1 + m2;
    case Some(Grid(c, _, items)) =>
      if items != [] {
        CeilDivBounds(|items|, GridColumns(c));
        GridRowsPositive(|items|, GridColumns(c));
        GridWithin(items, w, h, GridColumns(c), CeilDiv(|items|, GridColumns(c)));
      }
    case Some(_) =>
      assert w <= Max0(w) && h <= Max0(h);
  }

  /** The zero divisors of the share computation: a grid with items and 0
      columns, a negative column count whose floored row count is 0
      (`(2 - 2 - 1) // -2 == 0`), and any split on a canvas of width 0. One item
      in -1 columns has one row and a negative width share. */
  lemma ZeroDivisionExamples()
    ensures !DivisionSafe(Some(Grid(Some(0), None, ["a"])), 4961)
    ensures !DivisionSafe(Some(Grid(Some(-2), None, ["a", "b"])), 4961)
    ensures !DivisionSafe(Some(Split(None, None, None, None, None)), 0)
    ensures DivisionSafe(Some(Grid(Some(-1), None, ["a"])), 4961)
      && Percentages(Some(Grid(Some(-1), None, ["a"])), 1.0, 1.0, 4961) == map["a" := Share(-1.0, 1.0)]
  {
  }

  /** Two maps within smaller bounds are together within the larger ones. */
  lemma WithinUnion(m1: map<string, Share>, m2: map<string, Share>, w1: real, h1: real, w2: real, h2: real,
                    bw: real, bh: real)
    requires Within(m1, w1, h1) && Within(m2, w2, h2)
    requires w1 <= bw && h1 <= bh && w2 <= bw && h2 <= bh
    ensures Within(m1 + m2, bw, bh)
  {
  }

  /** Every item of a grid gets an even share, within the grid's own. */
  lemma GridWithin(items: seq<string>, w: real, h: real, cols: int, rows: int)
    requires cols >= 1 && rows >= 1
    ensures Within(map k | k in items :: Share(w / cols as real, h / rows as real), Max0(w), Max0(h))
  {
    ShareDivides(w, cols);
    ShareDivides(h, rows);
  }

  /** On the default canvas a hero in the first half of a default split gets
      50% minus half a 50-pixel gap, which passes the 30% minimum. */
  lemma HalfSplitHeroExample()
    ensures var tree := Some(Split(None, None, None, Some(Slot(Some("hero_left"), None)),
                                   Some(Slot(Some("bag"), None))));
      Percentages(tree, 1.0, 1.0, 4961)["hero_left"].widthPct == 0.5 - 25.0 / 4961.0
      && TreeErrors(tree, ["hero_left", "bag"], 4961) == []
  {
    var tree := Some(Split(None, None, None, Some(Slot(Some("hero_left"), None)),
                           Some(Slot(Some("bag"), None))));
    var pct := Percentages(tree, 1.0, 1.0, 4961);
    assert Slots(tree) == [Some("hero_left"), Some("bag")];
    assert IsHero("hero_left") by {
      assert Lower("hero_left") == "hero_left";
      ContainsWitness("hero_left", "hero", 0);
    }
    assert pct["hero_left"].widthPct == 0.5 - 25.0 / 4961.0;
    assert ["hero_left", "bag"][..1] == ["hero_left"];
    assert HeroWidthErrors(["hero_left"], pct) == [];
    assert HeroWidthErrors(["hero_left", "bag"], pct) == [];
    assert MissingIds(Slots(tree), ["hero_left", "bag"]) == {};
    assert UnknownIds(Slots(tree), ["hero_left", "bag"]) == {};
    HeroGridErrorsNoHeroes(Grids(tree));
  }

  // ----- What the container check reports -----

  lemma {:induction false} WidthErrorsEmpty(cs: seq<Container>)
    ensures WidthErrors(cs) == [] <==> forall c | c in cs :: c.w >= MinWidthPx(c.id)
  {
    if cs != [] {
      WidthErrorsEmpty(cs[..|cs| - 1]);
      assert forall c :: c in cs <==> c in cs[..|cs| - 1] || c == cs[|cs| - 1];
    }
  }

  /** The container check passes exactly when every container meets its
      role's minimum width and every inventory id has a container; extra and
      duplicate containers are never reported. */
  lemma ContainersValidIff(cs: seq<Container>, keys: seq<string>)
    ensures ContainerErrors(cs, keys) == [] <==>
      (forall c | c in cs :: c.w >= MinWidthPx(c.id))
      && (forall k | k in keys :: exists c | c in cs :: c.id == k)
  {
    WidthErrorsEmpty(cs);
    var covered := forall k | k in keys :: exists c | c in cs :: c.id == k;
    if UncoveredIds(cs, keys) != {} {
      var k :| k in UncoveredIds(cs, keys);
      assert k in keys && forall c | c in cs :: c.id != k;
      assert !covered;
    }
    if !covered {
      var k :| k in keys && !(exists c | c in cs :: c.id == k);
      assert k in UncoveredIds(cs, keys);
    }
  }

  /** Appending a container that meets its minimum width never turns a
      passing container check into a failing one, whatever its id. */
  lemma ExtraContainerHarmless(cs: seq<Container>, keys: seq<string>, extra: Container)
    requires ContainerErrors(cs, keys) == [] && extra.w >= MinWidthPx(extra.id)
    ensures ContainerErrors(cs + [extra], keys) == []
  {
    ContainersValidIff(cs, keys);
    ContainersValidIff(cs + [extra], keys);
    forall k | k in keys ensures exists c | c in cs + [extra] :: c.id == k {
      var c :| c in cs && c.id == k;
      assert c in cs + [extra];
    }
  }
}
