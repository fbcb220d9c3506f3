/** How `generate_remixes` assembles what it saves, given for each base
    layout its mirror, its shuffle (or none) and its mix with every other
    base (or none). The variants themselves are computed in `Designer`; here
    they are tables, so the counting and membership facts hold whatever the
    variants are. */
module RemixAssembly {
  import opened Common
  import opened Boxes

  /** An entry of `base_layouts`: a preset name and its `containers`. */
  datatype Layout = Layout(name: string, containers: seq<Box>)

  /** What one call of `_save_template` writes: the file's preset name, its
      containers and its description. */
  datatype Saved = Saved(name: string, containers: seq<Box>, description: string)

  function MirrorName(name: string): string { "Remix_Mirror_" + name }

  function ShuffleName(name: string): string { "Remix_Shuffle_" + name }

  /** `f"Remix_Mix_{a}_X_{b}"` with every "layout_" and then every "_classic"
      removed. */
  function MixName(a: string, b: string): string {
    ReplaceAll(ReplaceAll("Remix_Mix_" + a + "_X_" + b, "layout_", ""), "_classic", "")
  }

  /** The names of the bases, in dictionary order. */
  function Names(bases: seq<Layout>): (r: seq<string>)
    ensures |r| == |bases| && forall i :: 0 <= i < |bases| ==> r[i] == bases[i].name
  {
    if bases == [] then [] else Names(bases[..|bases| - 1]) + [bases[|bases| - 1].name]
  }

  /** A variant passes `if shuffled:` / `if mixed:` when it exists and is a
      non-empty list. */
  predicate Produced(v: Option<seq<Box>>) {
    v.Some? && v.value != []
  }

  /** Tables with one mirror and one shuffle per base and one mix per ordered
      pair of bases. */
  predicate Tables(names: seq<string>, mirrors: seq<seq<Box>>, shuffles: seq<Option<seq<Box>>>,
                   mixes: seq<seq<Option<seq<Box>>>>) {
    |mirrors| == |names| && |shuffles| == |names| && |mixes| == |names|
    && forall a :: 0 <= a < |mixes| ==> |mixes[a]| == |names|
  }

  function MirrorSaved(name: string, mirrored: seq<Box>): Saved {
    Saved(MirrorName(name), mirrored, "Mirrored version of " + name)
  }

  /** The shuffle of one base as saved, or nothing. */
  function ShuffleSaved(name: string, shuffled: Option<seq<Box>>): seq<Saved> {
    if Produced(shuffled) then [Saved(ShuffleName(name), shuffled.value, "Shuffled role positions of " + name)]
    else []
  }

  /** The mix of bases named `na` (left) and `nb` (right) as saved, or
      nothing: a base is never mixed with a base of the same name. */
  function MixSaved(na: string, nb: string, mixed: Option<seq<Box>>): seq<Saved> {
    if na == nb then []
    else if Produced(mixed) then [Saved(MixName(na, nb), mixed.value, "Hybrid of " + na + " (Left) and " + nb + " (Right)")]
    else []
  }

  /** The first loop after `n` bases: each base's mirror, then its shuffle. */
  function PerBase(names: seq<string>, mirrors: seq<seq<Box>>, shuffles: seq<Option<seq<Box>>>, n: nat): seq<Saved>
    requires n <= |names| && |mirrors| == |names| && |shuffles| == |names|
  {
    if n == 0 then []
    else PerBase(names, mirrors, shuffles, n - 1) + [MirrorSaved(names[n - 1], mirrors[n - 1])]
         + ShuffleSaved(names[n - 1], shuffles[n - 1])
  }

  /** The inner mixing loop for left base `a` after `n` right bases. */
  function MixRow(names: seq<string>, mixes: seq<seq<Option<seq<Box>>>>, a: nat, n: nat): seq<Saved>
    requires a < |names| == |mixes| && n <= |mixes[a]| == |names|
  {
    if n == 0 then [] else MixRow(names, mixes, a, n - 1) + MixSaved(names[a], names[n - 1], mixes[a][n - 1])
  }

  /** The outer mixing loop after `m` left bases. */
  function MixAll(names: seq<string>, mixes: seq<seq<Option<seq<Box>>>>, m: nat): seq<Saved>
    requires m <= |names| == |mixes| && forall a :: 0 <= a < |mixes| ==> |mixes[a]| == |names|
  {
    if m == 0 then [] else MixAll(names, mixes, m - 1) + MixRow(names, mixes, m - 1, |names|)
  }

  /** Everything `generate_remixes` saves, in the order it saves it. */
  function Assemble(names: seq<string>, mirrors: seq<seq<Box>>, shuffles: seq<Option<seq<Box>>>,
                    mixes: seq<seq<Option<seq<Box>>>>): seq<Saved>
    requires Tables(names, mirrors, shuffles, mixes)
  {
    PerBase(names, mirrors, shuffles, |names|) + MixAll(names, mixes, |names|)
  }

  /** The number of the first `n` bases whose shuffle is saved. */
  function ShuffleCount(shuffles: seq<Option<seq<Box>>>, n: nat): (r: nat)
    requires n <= |shuffles|
    ensures r <= n
  {
    if n == 0 then 0 else ShuffleCount(shuffles, n - 1) + if Produced(shuffles[n - 1]) then 1 else 0
  }

  /** The first loop saves one mirror per base plus one shuffle per base
      whose shuffle is produced. */
  lemma {:induction false} PerBaseCount(names: seq<string>, mirrors: seq<seq<Box>>, shuffles: seq<Option<seq<Box>>>, n: nat)
    requires n <= |names| && |mirrors| == |names| && |shuffles| == |names|
    ensures |PerBase(names, mirrors, shuffles, n)| == n + ShuffleCount(shuffles, n)
    decreases n
  {
    if n > 0 {
      PerBaseCount(names, mirrors, shuffles, n - 1);
    }
  }

  /** Every base's mirror is saved, and so is every shuffle that is
      produced. */
  lemma {:induction false} PerBaseMembers(names: seq<string>, mirrors: seq<seq<Box>>, shuffles: seq<Option<seq<Box>>>, n: nat, i: nat)
    requires n <= |names| && |mirrors| == |names| && |shuffles| == |names| && i < n
    ensures MirrorSaved(names[i], mirrors[i]) in PerBase(names, mirrors, shuffles, n)
    ensures forall e :: e in ShuffleSaved(names[i], shuffles[i]) ==> e in PerBase(names, mirrors, shuffles, n)
    decreases n
  {
    var prev := PerBase(names, mirrors, shuffles, n - 1);
    var here := PerBase(names, mirrors, shuffles, n);
    assert here == prev + [MirrorSaved(names[n - 1], mirrors[n - 1])] + ShuffleSaved(names[n - 1], shuffles[n - 1]);
    if i < n - 1 {
      PerBaseMembers(names, mirrors, shuffles, n - 1, i);
    } else {
      assert here[|prev|] == MirrorSaved(names[i], mirrors[i]);
    }
  }

  /** Base `a` is never mixed with itself, so its row saves fewer templates
      than there are bases. */
  lemma {:induction false} MixRowLength(names: seq<string>, mixes: seq<seq<Option<seq<Box>>>>, a: nat, n: nat)
    requires a < |names| == |mixes| && n <= |mixes[a]| == |names|
    ensures |MixRow(names, mixes, a, n)| <= n
    ensures a < n ==> |MixRow(names, mixes, a, n)| <= n - 1
    decreases n
  {
    if n > 0 {
      MixRowLength(names, mixes, a, n - 1);
    }
  }

  lemma {:induction false} MixAllLength(names: seq<string>, mixes: seq<seq<Option<seq<Box>>>>, m: nat)
    requires 0 < |names| && m <= |names| == |mixes| && forall a :: 0 <= a < |mixes| ==> |mixes[a]| == |names|
    ensures |MixAll(names, mixes, m)| <= m * (|names| - 1)
    decreases m
  {
    if m > 0 {
      MixAllLength(names, mixes, m - 1);
      MixRowLength(names, mixes, m - 1, |names|);
      assert (m - 1) * (|names| - 1) + (|names| - 1) == m * (|names| - 1);
    }
  }

  /** At least one template per base (its mirror) and at most `n (n + 1)` for
      `n` bases: a mirror and a shuffle each, and a mix for each ordered pair
      of distinct bases. */
  lemma {:induction false} AssembleBounds(names: seq<string>, mirrors: seq<seq<Box>>, shuffles: seq<Option<seq<Box>>>,
                                          mixes: seq<seq<Option<seq<Box>>>>)
    requires Tables(names, mirrors, shuffles, mixes)
    ensures |names| <= |Assemble(names, mirrors, shuffles, mixes)| <= |names| * (|names| + 1)
  {
    var n := |names|;
    PerBaseCount(names, mirrors, shuffles, n);
    if n > 0 {
      MixAllLength(names, mixes, n);
      assert 2 * n + n * (n - 1) == n * (n + 1);
    }
  }

  lemma {:induction false} MixRowMembers(names: seq<string>, mixes: seq<seq<Option<seq<Box>>>>, a: nat, n: nat, e: Saved)
    requires a < |names| == |mixes| && n <= |mixes[a]| == |names|
    ensures e in MixRow(names, mixes, a, n) <==> exists j :: 0 <= j < n && e in MixSaved(names[a], names[j], mixes[a][j])
    decreases n
  {
    if n > 0 {
      var prev := MixRow(names, mixes, a, n - 1);
      var last := MixSaved(names[a], names[n - 1], mixes[a][n - 1]);
      assert MixRow(names, mixes, a, n) == prev + last;
      MixRowMembers(names, mixes, a, n - 1, e);
      if e in last {
        assert 0 <= n - 1 < n;
      }
      if exists j :: 0 <= j < n && e in MixSaved(names[a], names[j], mixes[a][j]) {
        var j :| 0 <= j < n && e in MixSaved(names[a], names[j], mixes[a][j]);
        if j < n - 1 {
          assert e in prev;
        }
      }
    }
  }

  /** A template comes from the mixing loops exactly when it is the saved mix
      of some ordered pair of bases. */
  lemma {:induction false} MixAllMembers(names: seq<string>, mixes: seq<seq<Option<seq<Box>>>>, m: nat, e: Saved)
    requires m <= |names| == |mixes| && forall a :: 0 <= a < |mixes| ==> |mixes[a]| == |names|
    ensures e in MixAll(names, mixes, m) <==>
      exists a, j :: 0 <= a < m && 0 <= j < |names| && e in MixSaved(names[a], names[j], mixes[a][j])
    decreases m
  {
    if m > 0 {
      var prev := MixAll(names, mixes, m - 1);
      var row := MixRow(names, mixes, m - 1, |names|);
      assert MixAll(names, mixes, m) == prev + row;
      MixAllMembers(names, mixes, m - 1, e);
      MixRowMembers(names, mixes, m - 1, |names|, e);
      if e in prev + row {
        if e in prev {
          var a, j :| 0 <= a < m - 1 && 0 <= j < |names| && e in MixSaved(names[a], names[j], mixes[a][j]);
          assert 0 <= a < m;
        } else {
          var j :| 0 <= j < |names| && e in MixSaved(names[m - 1], names[j], mixes[m - 1][j]);
          assert 0 <= m - 1 < m;
        }
      }
      if exists a, j :: 0 <= a < m && 0 <= j < |names| && e in MixSaved(names[a], names[j], mixes[a][j]) {
        var a, j :| 0 <= a < m && 0 <= j < |names| && e in MixSaved(names[a], names[j], mixes[a][j]);
        if a < m - 1 {
          assert e in prev;
        } else {
          assert e in row;
        }
      }
    }
  }
}
