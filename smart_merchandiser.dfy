/** The rank-based merchandiser (engine/smart_merchandiser.py): the
    analysed products are ranked by layout priority and then by area, and
    the ranks are given fixed visual roles, the first being the hero. */
module SmartMerchandiser {
  import opened Common
  import Sorting
  import opened PvilAnalyzer

  /** One entry of `placements`. */
  datatype Pick = Pick(file: string, visualRole: string, relativeSize: string, reason: string)

  /** The returned proposal. */
  datatype Proposal = Proposal(overallStrategy: string, heroChoice: string, placements: seq<Pick>)

  /** The roles of the first eight ranks. */
  const Roles: seq<(string, string)> := [
    ("hero", "xl"),
    ("right_anchor", "large"),
    ("center_focus", "large"),
    ("flow", "medium"),
    ("flow", "medium"),
    ("filler", "small"),
    ("filler", "small"),
    ("accent", "xs")]

  const OverallStrategy: string :=
    "Classic POD proposal: large hero on left, clean supporting grid on right. "
    + "Hero chosen by visual impact (size, aspect, simplicity). Smaller items as accents."

  /** `key=lambda x: (x["layout_priority"], -x["area"])`. */
  function RankKey(p: Product): Sorting.Key {
    (p.layoutPriority, -p.area)
  }

  /** `sorted(pvil_data, key=...)`: a permutation of the products. */
  function Ranking(data: seq<Product>): (r: seq<Product>)
    ensures |r| == |data| && multiset(r) == multiset(data)
  {
    Sorting.SortByCorrect(data, RankKey);
    Sorting.SortBy(data, RankKey)
  }

  /** The role and size of rank `i` (counted from 0). */
  function RoleAt(i: nat): (string, string) {
    if i < |Roles| then Roles[i] else ("accent", "xs")
  }

  function Reason(i: nat, p: Product): string {
    if i == 0 then "Top-ranked by visual impact score"
    else "Rank " + NatToString(i + 1) + " in visual hierarchy: " + AspectName(p.aspect) + " "
         + SizeName(p.sizeCategory) + " " + ComplexityName(p.complexity)
  }

  function PickFor(i: nat, p: Product): Pick {
    Pick(p.file, RoleAt(i).0, RoleAt(i).1, Reason(i, p))
  }

  /** The placements of the first `n` ranked products. */
  function Picks(ranked: seq<Product>, n: nat): seq<Pick>
    requires n <= |ranked|
  {
    Indexed(PickFor, ranked, n)
  }

  function HeroChoice(file: string): string {
    file + " selected as hero: best balance of size, aspect, and clean composition."
  }

  /** `smart_merchandize`. The hero choice reads the first ranked product,
      so the products must not be empty. */
  method SmartMerchandize(data: seq<Product>) returns (r: Proposal)
    requires |data| > 0
    ensures r == Proposal(OverallStrategy, HeroChoice(Ranking(data)[0].file), Picks(Ranking(data), |data|))
  {
    var ranked := Ranking(data);
    var placements: seq<Pick> := [];
    for i := 0 to |ranked|
      invariant placements == Picks(ranked, i)
    {
      var pick := PlaceRank(i, ranked[i]);
      placements := placements + [pick];
    }
    r := Proposal(OverallStrategy, HeroChoice(ranked[0].file), placements);
  }

  /** The body of the placement loop: the entry for the product of rank `i`. */
  method PlaceRank(i: nat, product: Product) returns (pick: Pick)
    ensures pick == PickFor(i, product)
  {
    var role, size;
    if i < |Roles| {
      role, size := Roles[i].0, Roles[i].1;
    } else {
      role, size := "accent", "xs";
    }
    var reason;
    if i == 0 {
      reason := "Top-ranked by visual impact score";
    } else {
      reason := "Rank " + NatToString(i + 1) + " in visual hierarchy: " + AspectName(product.aspect) + " "
                + SizeName(product.sizeCategory) + " " + ComplexityName(product.complexity);
    }
    pick := Pick(product.file, role, size, reason);
  }

  /** One placement per product, in rank order: rank `k` carries its
      product's file and the role of rank `k`. */
  lemma PicksSpec(ranked: seq<Product>, n: nat)
    requires n <= |ranked|
    ensures |Picks(ranked, n)| == n
    ensures forall k :: 0 <= k < n ==> Picks(ranked, n)[k] == PickFor(k, ranked[k])
  {
    IndexedSpec(PickFor, ranked, n);
  }

  /** Only the first rank is the hero; ranks from the eighth on are accents. */
  lemma RoleAtSpec(k: nat)
    ensures RoleAt(k).0 == "hero" <==> k == 0
    ensures k >= 7 ==> RoleAt(k) == ("accent", "xs")
  {
  }

  /** The ranking orders by priority, then by area from largest to
      smallest, keeps the input order among equal keys, and starts with a
      product of the best rank. */
  lemma RankingSpec(data: seq<Product>)
    ensures var r := Ranking(data);
      (forall i, j :: 0 <= i < j < |r| ==>
         r[i].layoutPriority < r[j].layoutPriority
         || (r[i].layoutPriority == r[j].layoutPriority && r[i].area >= r[j].area))
      && (forall k :: Sorting.WithKey(r, RankKey, k) == Sorting.WithKey(data, RankKey, k))
      && (|r| > 0 ==> forall p :: p in data ==> Sorting.KeyLe(RankKey(r[0]), RankKey(p)))
  {
    var r := Ranking(data);
    Sorting.SortByCorrect(data, RankKey);
    forall i, j | 0 <= i < j < |r|
      ensures r[i].layoutPriority < r[j].layoutPriority
           || (r[i].layoutPriority == r[j].layoutPriority && r[i].area >= r[j].area)
    {
      assert Sorting.KeyLe(RankKey(r[i]), RankKey(r[j]));
    }
    if |r| > 0 {
      forall p | p in data ensures Sorting.KeyLe(RankKey(r[0]), RankKey(p)) {
        assert p in multiset(r);
        var k :| 0 <= k < |r| && r[k] == p;
        if k > 0 {
          assert Sorting.KeyLe(RankKey(r[0]), RankKey(r[k]));
        }
      }
    }
  }

  /** When the products carry consistent priorities, the hero is a hero
      candidate whenever any product is one. */
  lemma HeroIsCandidate(data: seq<Product>)
    requires |data| > 0
    requires forall p :: p in data ==> Ranked(p)
    requires exists p :: p in data && p.isHeroCandidate
    ensures Ranking(data)[0].isHeroCandidate
  {
    RankingSpec(data);
    var p :| p in data && p.isHeroCandidate;
    var r := Ranking(data);
    assert r[0] in multiset(r);
    assert r[0] in data;
    assert Sorting.KeyLe(RankKey(r[0]), RankKey(p));
  }
}
