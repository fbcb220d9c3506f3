/** The rule-based parts of the layout brain (engine/layout_brain.py): the
    orientation of an image, the size table keyed on the role prefix of each
    inventory id, and the fallback layout tree used when no language model is
    available. The image size is an input; a size that cannot be read is
    `None`. */
module LayoutBrain {
  import opened Common
  import opened LayoutTree
  import ImageUtils
  import Validator

  // ---------------------------------------------------------------------------
  // get_image_info

  datatype Orientation = Landscape | Portrait | Square

  function OrientationName(o: Orientation): string {
    match o
    case Landscape => "Landscape"
    case Portrait => "Portrait"
    case Square => "Square"
  }

  function OrientationOf(aspect: real): Orientation {
    if aspect > 1.2 then Landscape else if aspect < 0.8 then Portrait else Square
  }

  datatype ImageInfo = ImageInfo(aspect: real, orientation: Orientation, width: int, height: int)

  /** `get_image_info`: an image that cannot be opened, or whose height is
      zero (the division raises inside the `try`), reports a square of
      1000 by 1000. */
  function GetImageInfo(size: Option<(nat, nat)>): ImageInfo {
    if size.None? || size.value.1 == 0 then ImageInfo(1.0, Square, 1000, 1000)
    else
      var (w, h) := size.value;
      var aspect := w as real / h as real;
      ImageInfo(aspect, OrientationOf(aspect), w, h)
  }

  /** The orientation thresholds in whole-number terms: wider than 6:5 is
      landscape, narrower than 4:5 is portrait. */
  lemma OrientationPixels(w: Pos, h: Pos)
    ensures OrientationOf(w as real / h as real) == Landscape <==> 5 * w > 6 * h
    ensures OrientationOf(w as real / h as real) == Portrait <==> 5 * w <= 6 * h && 5 * w < 4 * h
  {
    ImageUtils.AspectCompare(w, h, 6, 5);
    assert 6 as real / 5 as real == 1.2;
    ImageUtils.AspectCompare(4, 5, w, h);
    assert 4 as real / 5 as real == 0.8;
  }

  /** The report is always consistent: the aspect is width over height and
      the orientation is the one the thresholds give for it, the fallback
      included; a readable image reports its own size. */
  lemma ImageInfoConsistent(size: Option<(nat, nat)>)
    ensures var r := GetImageInfo(size);
      r.height > 0 && r.aspect == r.width as real / r.height as real && r.orientation == OrientationOf(r.aspect)
    ensures size.Some? && size.value.1 > 0 ==> GetImageInfo(size).width == size.value.0 && GetImageInfo(size).height == size.value.1
    ensures size.None? || size.value.1 == 0 <==> GetImageInfo(size) == ImageInfo(1.0, Square, 1000, 1000) && size != Some((1000, 1000))
  {
  }

  // ---------------------------------------------------------------------------
  // The size table

  /** One entry of `size_mapping`, without its description text. */
  datatype SizeRule = SizeRule(minWidthPct: int, maxWidthPct: int, sizeClass: string)

  /** `role.split('_')[0].lower()`. */
  function RoleBase(role: string): string {
    Lower(TakeUntil(role, '_'))
  }

  /** The entry for one inventory id. */
  function SizeRuleFor(role: string): SizeRule {
    var base := RoleBase(role);
    if Contains(base, "hero") then SizeRule(30, 40, "xl")
    else if Contains(base, "support") then
      if Contains(Lower(role), "large") then SizeRule(15, 20, "large") else SizeRule(10, 15, "medium")
    else if Contains(base, "cluster") then SizeRule(20, 30, "large")
    else SizeRule(8, 12, "small")
  }

  /** The table after the first `n` inventory ids. */
  function SizeTable(keys: seq<string>, n: nat): map<string, SizeRule>
    requires n <= |keys|
  {
    Tabulate(keys, SizeRuleFor, n)
  }

  /** The loop that builds `size_mapping` in `generate_layout_strategy`. */
  method SizeMapping(keys: seq<string>) returns (sizeMapping: map<string, SizeRule>)
    ensures sizeMapping == SizeTable(keys, |keys|)
  {
    sizeMapping := map[];
    for i := 0 to |keys|
      invariant sizeMapping == SizeTable(keys, i)
    {
      var rule := RuleOf(keys[i]);
      sizeMapping := sizeMapping[keys[i] := rule];
    }
  }

  /** The body of that loop: the rule for one inventory id. */
  method RuleOf(role: string) returns (rule: SizeRule)
    ensures rule == SizeRuleFor(role)
  {
    var roleBase := Lower(TakeUntil(role, '_'));
    if Contains(roleBase, "hero") {
      rule := SizeRule(30, 40, "xl");
    } else if Contains(roleBase, "support") {
      if Contains(Lower(role), "large") {
        rule := SizeRule(15, 20, "large");
      } else {
        rule := SizeRule(10, 15, "medium");
      }
    } else if Contains(roleBase, "cluster") {
      rule := SizeRule(20, 30, "large");
    } else {
      rule := SizeRule(8, 12, "small");
    }
  }

  /** The table has one entry per inventory id, and that entry is the rule
      for the id. */
  lemma SizeTableSpec(keys: seq<string>, n: nat)
    requires n <= |keys|
    ensures forall k :: k in SizeTable(keys, n) <==> k in keys[..n]
    ensures forall k :: k in SizeTable(keys, n) ==> SizeTable(keys, n)[k] == SizeRuleFor(k)
  {
    TabulateSpec(keys, SizeRuleFor, n);
  }

  /** The four size classes and their width bands: the role prefix decides,
      "hero" before "support" before "cluster"; only a support looks at the
      whole id for "large"; every band lies within 8-40% of the width. */
  lemma SizeRuleBands(role: string)
    ensures var r, base := SizeRuleFor(role), RoleBase(role);
      8 <= r.minWidthPct < r.maxWidthPct <= 40
      && (r.sizeClass == "xl" <==> Contains(base, "hero"))
      && (Contains(base, "hero") ==> (r.minWidthPct, r.maxWidthPct) == (30, 40))
      && (!Contains(base, "hero") && Contains(base, "support") ==>
            (r.minWidthPct, r.maxWidthPct, r.sizeClass)
            == if Contains(Lower(role), "large") then (15, 20, "large") else (10, 15, "medium"))
      && (!Contains(base, "hero") && !Contains(base, "support") && Contains(base, "cluster") ==>
            (r.minWidthPct, r.maxWidthPct, r.sizeClass) == (20, 30, "large"))
      && (r.sizeClass == "small" <==> !Contains(base, "hero") && !Contains(base, "support") && !Contains(base, "cluster"))
  {
  }

  /** The prefix is the text before the first underscore: an id whose first
      segment is "Hero", in any case, is sized as a hero. */
  lemma RoleBaseHero(first: string, rest: string)
    requires '_' !in first && Lower(first) == "hero"
    ensures SizeRuleFor(first + "_" + rest).sizeClass == "xl"
  {
    var role := first + "_" + rest;
    assert role == first + ("_" + rest);
    TakeUntilPrefix(first, "_" + rest, '_');
    ContainsParts(Lower(first), "");
    assert Lower(first) + "" == Lower(first);
  }

  lemma {:induction false} TakeUntilPrefix(a: string, b: string, c: char)
    requires c !in a && b != [] && b[0] == c
    ensures TakeUntil(a + b, c) == a
    decreases |a|
  {
    if a == [] {
      assert a + b == b;
    } else {
      assert (a + b)[1..] == a[1..] + b;
      TakeUntilPrefix(a[1..], b, c);
    }
  }

  // ---------------------------------------------------------------------------
  // _fallback_strategy

  /** `"hero" in k`, case-sensitive. */
  predicate NamesHero(k: string) { Contains(k, "hero") }

  predicate NotHero(k: string) { !Contains(k, "hero") }

  function FallbackHeroes(keys: seq<string>): seq<string> { Filter(keys, NamesHero) }

  function FallbackOthers(keys: seq<string>): seq<string> { Filter(keys, NotHero) }

  /** `_fallback_strategy`: the first hero in a slot on the left half, the
      rest (extra heroes last) in a two-column grid on the right; without a
      hero, a three-column grid of every id. */
  function FallbackStrategy(keys: seq<string>): Node {
    var heroes := FallbackHeroes(keys);
    var others := FallbackOthers(keys);
    if heroes != [] then
      Split(Some("horizontal"), Some(0.5), Some(60),
            Some(Slot(Some(heroes[0]), None)),
            Some(Grid(Some(2), Some(60), others + heroes[1..])))
    else Grid(Some(3), Some(60), keys)
  }

  /** The hero in the slot is the first id containing "hero", in inventory
      order. */
  lemma FallbackFirstHero(keys: seq<string>)
    requires exists k :: k in keys && NamesHero(k)
    ensures var t := FallbackStrategy(keys);
      t.Split? && t.first.Some? && t.first.value.Slot? && t.first.value.itemId.Some?
      && exists i :: 0 <= i < |keys| && keys[i] == t.first.value.itemId.value && NamesHero(keys[i])
                     && forall j :: 0 <= j < i ==> !NamesHero(keys[j])
  {
    var k :| k in keys && NamesHero(k);
    FilterMembers(keys, NamesHero);
    assert k in FallbackHeroes(keys);
    FilterHead(keys, NamesHero);
  }

  /** Without any id containing "hero", the tree is one three-column grid of
      every id in inventory order. */
  lemma FallbackNoHero(keys: seq<string>)
    requires forall k :: k in keys ==> !NamesHero(k)
    ensures FallbackStrategy(keys) == Grid(Some(3), Some(60), keys)
  {
    FilterNone(keys, NamesHero);
  }

  /** The ids the tree lists, in the order the validator collects them. */
  function FallbackIds(keys: seq<string>): seq<string> {
    var heroes, others := FallbackHeroes(keys), FallbackOthers(keys);
    if heroes != [] then [heroes[0]] + others + heroes[1..] else keys
  }

  /** Every inventory id appears in the tree exactly as often as in the
      inventory, and the solver can walk the tree. */
  lemma FallbackCoversInventory(keys: seq<string>)
    ensures Slots(Some(FallbackStrategy(keys))) == Lift(FallbackIds(keys))
    ensures multiset(FallbackIds(keys)) == multiset(keys)
    ensures SolverReady(FallbackStrategy(keys))
  {
    FallbackSlots(keys);
    FallbackPermutes(keys);
  }

  lemma FallbackSlots(keys: seq<string>)
    ensures Slots(Some(FallbackStrategy(keys))) == Lift(FallbackIds(keys))
  {
    var heroes, others := FallbackHeroes(keys), FallbackOthers(keys);
    if heroes != [] {
      assert Lift([heroes[0]] + others + heroes[1..]) == [Some(heroes[0])] + Lift(others + heroes[1..]);
    }
  }

  lemma FallbackPermutes(keys: seq<string>)
    ensures multiset(FallbackIds(keys)) == multiset(keys)
  {
    var heroes, others := FallbackHeroes(keys), FallbackOthers(keys);
    FilterPartition(keys, NamesHero, NotHero);
    if heroes != [] {
      assert heroes == [heroes[0]] + heroes[1..];
    }
  }

  /** The fallback tree always passes the validator's inventory checks:
      nothing missing, nothing unknown, and one slot per id. */
  lemma FallbackInventoryValid(keys: seq<string>)
    ensures Validator.InventoryErrors(Slots(Some(FallbackStrategy(keys))), keys) == []
  {
    var slots := Slots(Some(FallbackStrategy(keys)));
    var ids := FallbackIds(keys);
    FallbackCoversInventory(keys);
    Validator.LiftMembers(ids);
    forall k | k in keys ensures Some(k) in slots {
      assert k in multiset(ids);
    }
    forall s | s in slots ensures s.Some? && s.value in keys {
      assert s.value in multiset(ids);
    }
    assert |ids| == |multiset(ids)| == |multiset(keys)| == |keys|;
    assert Validator.MissingIds(slots, keys) == {};
    assert Validator.UnknownIds(slots, keys) == {};
  }

  /** A lower-case pattern found in an id is found in its lower-cased form. */
  lemma ContainsLowered(s: string, t: string)
    requires Contains(s, t) && Lower(t) == t
    ensures Contains(Lower(s), t)
  {
    ContainsAt(s, t);
    var i :| OccursAt(s, t, i);
    assert Lower(s)[i..i + |t|] == Lower(t);
    ContainsWitness(Lower(s), t, i);
  }

  /** With two or more ids containing "hero", the extra heroes go into the
      grid, so the validator reports a hero in a grid and rejects the tree. */
  lemma FallbackTwoHeroesRejected(keys: seq<string>, canvasWidth: int)
    requires |FallbackHeroes(keys)| >= 2 && canvasWidth != 0
    ensures Validator.DivisionSafe(Some(FallbackStrategy(keys)), canvasWidth)
    ensures Validator.HeroInGrid(FallbackHeroes(keys)[1]) in Validator.TreeErrors(Some(FallbackStrategy(keys)), keys, canvasWidth)
    ensures Validator.TreeErrors(Some(FallbackStrategy(keys)), keys, canvasWidth) != []
  {
    FallbackHeroInGrid(keys, canvasWidth);
  }

  /** The validator can walk the fallback tree. */
  lemma FallbackReady(keys: seq<string>)
    ensures PositiveGrids(Some(FallbackStrategy(keys)))
  {
    FallbackCoversInventory(keys);
    SolverReadyPositiveGrids(FallbackStrategy(keys));
  }

  /** The second hero of the fallback tree sits in its grid, and the
      validator reports it. */
  lemma FallbackHeroInGrid(keys: seq<string>, canvasWidth: int)
    requires |FallbackHeroes(keys)| >= 2 && canvasWidth != 0
    ensures Validator.DivisionSafe(Some(FallbackStrategy(keys)), canvasWidth)
    ensures Validator.HeroInGrid(FallbackHeroes(keys)[1]) in Validator.TreeErrors(Some(FallbackStrategy(keys)), keys, canvasWidth)
  {
    FallbackReady(keys);
    Validator.PositiveGridsDivisionSafe(Some(FallbackStrategy(keys)), canvasWidth);
    var heroes, others := FallbackHeroes(keys), FallbackOthers(keys);
    var tree := Some(FallbackStrategy(keys));
    var h := heroes[1];
    FilterMembers(keys, NamesHero);
    assert h in heroes;
    assert Lower("hero") == "hero";
    ContainsLowered(h, "hero");
    var g := others + heroes[1..];
    assert Grids(tree) == [g];
    assert h in g;
    Validator.HeroInGridReported(tree, keys, canvasWidth, h);
  }
}
