/** The product analyser (engine/pvil_analyzer.py): every `.png` file of a
    folder is measured and classified by aspect, size and visual complexity,
    and given a layout priority; the records come back largest first.

    The listing of the folder and the measurements (pixel size and the
    share of edge pixels found by the edge detector) are inputs. */
module PvilAnalyzer {
  import opened Common
  import Sorting
  import ImageUtils

  datatype Aspect = Horizontal | Vertical | Square
  datatype SizeCategory = Large | Medium | Small
  datatype Complexity = Complex | Moderate | Simple

  function AspectName(a: Aspect): string {
    match a
    case Horizontal => "horizontal"
    case Vertical => "vertical"
    case Square => "square"
  }

  function SizeName(s: SizeCategory): string {
    match s
    case Large => "large"
    case Medium => "medium"
    case Small => "small"
  }

  function ComplexityName(c: Complexity): string {
    match c
    case Complex => "complex"
    case Moderate => "moderate"
    case Simple => "simple"
  }

  /** What the imaging libraries report for one file. */
  datatype Measurement = Measurement(width: Pos, height: Pos, edgeDensity: real)

  /** One record of the returned list. */
  datatype Product = Product(file: string, path: string, width: int, height: int, area: int,
                             aspectRatio: real, aspect: Aspect, sizeCategory: SizeCategory,
                             complexity: Complexity, edgeDensity: real, isHeroCandidate: bool,
                             layoutPriority: int)

  function AspectOf(ratio: real): Aspect {
    if ratio > 1.5 then Horizontal else if ratio < 0.67 then Vertical else Square
  }

  function SizeOf(area: int): SizeCategory {
    if area > 8000000 then Large else if area > 2000000 then Medium else Small
  }

  function ComplexityOf(density: real): Complexity {
    if density > 0.04 then Complex else if density > 0.02 then Moderate else Simple
  }

  predicate HeroCandidate(s: SizeCategory, a: Aspect, c: Complexity) {
    (s == Large || s == Medium) && (a == Horizontal || a == Square) && (c == Simple || c == Moderate)
  }

  function Priority(hero: bool, s: SizeCategory): int {
    if hero && s == Large then 1
    else if hero && s == Medium then 2
    else if s == Large then 3
    else if s == Medium then 4
    else 5
  }

  /** The aspect thresholds in whole-number terms: wider than 3:2 is
      horizontal, narrower than 67:100 is vertical. */
  lemma AspectOfPixels(w: Pos, h: Pos)
    ensures AspectOf(w as real / h as real) == Horizontal <==> 2 * w > 3 * h
    ensures AspectOf(w as real / h as real) == Vertical <==> 2 * w <= 3 * h && 100 * w < 67 * h
  {
    ImageUtils.AspectCompare(w, h, 3, 2);
    assert 3 as real / 2 as real == 1.5;
    ImageUtils.AspectCompare(67, 100, w, h);
    assert 67 as real / 100 as real == 0.67;
  }

  /** A hero candidate is anything that is not small, not vertical and not
      complex. */
  lemma HeroCandidateSpec(s: SizeCategory, a: Aspect, c: Complexity)
    ensures HeroCandidate(s, a, c) <==> s != Small && a != Vertical && c != Complex
  {
  }

  /** Priorities run from 1 to 5, the two best go exactly to hero
      candidates that are not small, and the worst exactly to small
      products. */
  lemma PrioritySpec(hero: bool, s: SizeCategory)
    ensures 1 <= Priority(hero, s) <= 5
    ensures Priority(hero, s) <= 2 <==> hero && s != Small
    ensures Priority(hero, s) == 5 <==> s == Small
  {
  }

  /** The record of file `f` of `folder` measured as `m`. */
  function Analyze(folder: string, f: string, m: Measurement): Product {
    var area := m.height * m.width;
    var ratio := m.width as real / m.height as real;
    var aspect := AspectOf(ratio);
    var size := SizeOf(area);
    var complexity := ComplexityOf(m.edgeDensity);
    var hero := HeroCandidate(size, aspect, complexity);
    Product(f, JoinPath(folder, f), m.width, m.height, area, ratio, aspect, size, complexity,
            m.edgeDensity, hero, Priority(hero, size))
  }

  /** A record's priority agrees with its hero flag: 1 or 2 exactly for a
      hero candidate, and a hero candidate is never small. */
  predicate Ranked(p: Product) {
    1 <= p.layoutPriority <= 5 && (p.layoutPriority <= 2 <==> p.isHeroCandidate)
  }

  lemma AnalyzeRanked(folder: string, f: string, m: Measurement)
    ensures Ranked(Analyze(folder, f, m))
    ensures Analyze(folder, f, m).area > 0
  {
    var p := Analyze(folder, f, m);
    PrioritySpec(p.isHeroCandidate, p.sizeCategory);
  }

  /** `f.lower().endswith('.png')`. */
  predicate IsPng(f: string) {
    EndsWith(Lower(f), ".png")
  }

  /** The list before the sort, after the first `|listing|` entries. */
  function Analyzed(folder: string, listing: seq<string>, measure: string -> Measurement): seq<Product> {
    if listing == [] then []
    else
      var f := listing[|listing| - 1];
      Analyzed(folder, listing[..|listing| - 1], measure)
      + if IsPng(f) then [Analyze(folder, f, measure(JoinPath(folder, f)))] else []
  }

  /** `key=lambda x: x["area"], reverse=True`: a stable sort on the negated
      area. */
  function AreaKey(p: Product): Sorting.Key {
    (-p.area, 0)
  }

  /** `analyze_products`. */
  method AnalyzeProducts(folder: string, listing: seq<string>, measure: string -> Measurement)
    returns (products: seq<Product>)
    ensures products == Sorting.SortBy(Analyzed(folder, listing, measure), AreaKey)
  {
    var found: seq<Product> := [];
    for i := 0 to |listing|
      invariant found == Analyzed(folder, listing[..i], measure)
    {
      assert listing[..i + 1][..i] == listing[..i];
      var f := listing[i];
      if IsPng(f) {
        var m := measure(JoinPath(folder, f));
        found := found + [Analyze(folder, f, m)];
      }
    }
    assert listing[..|listing|] == listing;
    products := Sorting.SortBy(found, AreaKey);
  }

  /** Records are made for `.png` files only, each the analysis of its own
      file, and every `.png` file of the listing has one. */
  lemma {:induction false} AnalyzedMembers(folder: string, listing: seq<string>, measure: string -> Measurement)
    ensures |Analyzed(folder, listing, measure)| == |Filter(listing, IsPng)|
    ensures forall p :: p in Analyzed(folder, listing, measure) ==>
      p.file in listing && IsPng(p.file) && p == Analyze(folder, p.file, measure(JoinPath(folder, p.file)))
    ensures forall f :: f in listing && IsPng(f) ==>
      Analyze(folder, f, measure(JoinPath(folder, f))) in Analyzed(folder, listing, measure)
    decreases |listing|
  {
    if listing != [] {
      var init, f := listing[..|listing| - 1], listing[|listing| - 1];
      AnalyzedMembers(folder, init, measure);
      assert listing == init + [f];
      FilterAppend(init, [f], IsPng);
      assert Filter([f], IsPng) == if IsPng(f) then [f] else [];
    }
  }

  /** The result: one record per `.png` file, each the analysis of its file
      with a consistent priority, ordered by area from largest to smallest,
      files of equal area keeping the listing's order. */
  lemma AnalyzeProductsSpec(folder: string, listing: seq<string>, measure: string -> Measurement)
    ensures var products := Sorting.SortBy(Analyzed(folder, listing, measure), AreaKey);
      |products| == |Filter(listing, IsPng)|
      && (forall p :: p in products ==>
            p.file in listing && IsPng(p.file) && Ranked(p)
            && p == Analyze(folder, p.file, measure(JoinPath(folder, p.file))))
      && (forall f :: f in listing && IsPng(f) ==> Analyze(folder, f, measure(JoinPath(folder, f))) in products)
      && (forall i, j :: 0 <= i < j < |products| ==> products[i].area >= products[j].area)
      && (forall k :: Sorting.WithKey(products, AreaKey, k) == Sorting.WithKey(Analyzed(folder, listing, measure), AreaKey, k))
  {
    var found := Analyzed(folder, listing, measure);
    var products := Sorting.SortBy(found, AreaKey);
    AnalyzedMembers(folder, listing, measure);
    Sorting.SortByCorrect(found, AreaKey);
    forall p | p in products
      ensures p.file in listing && IsPng(p.file) && Ranked(p)
           && p == Analyze(folder, p.file, measure(JoinPath(folder, p.file)))
    {
      assert p in multiset(products);
      AnalyzeRanked(folder, p.file, measure(JoinPath(folder, p.file)));
    }
    forall f | f in listing && IsPng(f) ensures Analyze(folder, f, measure(JoinPath(folder, f))) in products {
      assert Analyze(folder, f, measure(JoinPath(folder, f))) in multiset(found);
    }
    forall i, j | 0 <= i < j < |products| ensures products[i].area >= products[j].area {
      assert Sorting.KeyLe(AreaKey(products[i]), AreaKey(products[j]));
    }
  }
}
