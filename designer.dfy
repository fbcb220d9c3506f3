/** The remix designer: new templates made from existing ones by mirroring
    every box about the vertical midline, by shuffling the positions of boxes
    that share a role, and by joining the left half of one template to the
    right half of another. Boxes are read through either key format, with
    Python's `or` (see `Boxes.LeftOf`). */
module Designer {
  import opened Common
  import opened Boxes
  import opened RemixAssembly

  /** The clearance `_check_collisions` demands between a left and a right box. */
  const CollisionMargin: int := 50

  /** A mix with fewer boxes than this has lost too much content. */
  const MinMixBoxes: int := 5

  // ---------------------------------------------------------------------------
  // Mirror

  /** The two values the mirror reads: the left edge and the width. */
  predicate Mirrorable(b: Box) {
    LeftOf(b).Some? && WidthOf(b).Some?
  }

  /** One box of `_create_mirror_variant`: the left edge becomes
      `canvas_width - x - w`, written to whichever of `canvas_x` and `x` the box
      has, and a non-zero rotation changes sign. */
  function MirrorBox(canvasWidth: int, b: Box): Box
    requires Mirrorable(b)
  {
    var newX := canvasWidth - LeftOf(b).value - WidthOf(b).value;
    var rot := b.rotationDeg.GetOr(0);
    b.(canvasX := if b.canvasX.Some? then Some(newX) else None,
       x := if b.x.Some? then Some(newX) else None,
       rotationDeg := if rot != 0 then Some(-rot) else b.rotationDeg)
  }

  /** The whole mirrored list, box by box. */
  function Mirrored(canvasWidth: int, cs: seq<Box>): seq<Box>
    requires forall i :: 0 <= i < |cs| ==> Mirrorable(cs[i])
  {
    seq(|cs|, i requires 0 <= i < |cs| => MirrorBox(canvasWidth, cs[i]))
  }

  /** Mirroring changes only the two horizontal keys and the rotation: the
      keys present stay present, the vertical extent and the width are kept,
      a readable new left edge is the reflection of the old one
      (`new + old + w == canvas_width`), and the rotation is negated. */
  lemma {:induction false} MirrorBoxSpec(canvasWidth: int, b: Box)
    requires Mirrorable(b)
    ensures var r := MirrorBox(canvasWidth, b);
      r == b.(canvasX := r.canvasX, x := r.x, rotationDeg := r.rotationDeg)
      && r.canvasX.Some? == b.canvasX.Some? && r.x.Some? == b.x.Some?
      && TopOf(r) == TopOf(b) && WidthOf(r) == WidthOf(b) && HeightOf(r) == HeightOf(b)
      && (LeftOf(r).Some? ==> LeftOf(r).value + LeftOf(b).value + WidthOf(b).value == canvasWidth)
      && r.rotationDeg.GetOr(0) == -b.rotationDeg.GetOr(0)
  {
  }

  /** A box whose two horizontal keys, when both present, agree. */
  predicate Consistent(b: Box) {
    b.canvasX.Some? && b.x.Some? ==> b.canvasX == b.x
  }

  /** Mirroring twice with the same canvas width restores the box, provided
      its horizontal keys agree and the mirrored box can be read again (a box
      mirrored onto `canvas_x == 0` with no `x` cannot, since `or` skips 0). */
  lemma {:induction false} MirrorInvolution(canvasWidth: int, b: Box)
    requires Mirrorable(b) && Consistent(b) && Mirrorable(MirrorBox(canvasWidth, b))
    ensures MirrorBox(canvasWidth, MirrorBox(canvasWidth, b)) == b
  {
    var r := MirrorBox(canvasWidth, b);
    var x0 := LeftOf(b).value;
    assert b.canvasX.Some? ==> b.canvasX == Some(x0);
    assert b.x.Some? ==> b.x == Some(x0);
    MirrorBoxSpec(canvasWidth, b);
    assert LeftOf(r).value == canvasWidth - x0 - WidthOf(b).value;
  }

  /** The list form of the involution. */
  lemma {:induction false} MirroredTwice(canvasWidth: int, cs: seq<Box>)
    requires forall i :: 0 <= i < |cs| ==>
      Mirrorable(cs[i]) && Consistent(cs[i]) && Mirrorable(MirrorBox(canvasWidth, cs[i]))
    ensures Mirrored(canvasWidth, Mirrored(canvasWidth, cs)) == cs
  {
    var once := Mirrored(canvasWidth, cs);
    forall i | 0 <= i < |cs| ensures Mirrored(canvasWidth, once)[i] == cs[i] {
      MirrorInvolution(canvasWidth, cs[i]);
    }
  }

  /** A box centred left of the midline is mirrored to one whose readable
      centre lies right of it. */
  lemma {:induction false} MirrorCrossesMidline(canvasWidth: int, b: Box)
    requires Mirrorable(b) && OnLeft(canvasWidth, b) && Mirrorable(MirrorBox(canvasWidth, b))
    ensures OnRight(canvasWidth, MirrorBox(canvasWidth, b))
  {
    MirrorBoxSpec(canvasWidth, b);
  }

  // ---------------------------------------------------------------------------
  // Collisions

  /** The margin-inflated overlap test of `_check_collisions`. */
  predicate Collide(a: Box, b: Box)
    requires Resolvable(a) && Resolvable(b)
  {
    var ax, ay, aw, ah := LeftOf(a).value, TopOf(a).value, WidthOf(a).value, HeightOf(a).value;
    var bx, by0, bw, bh := LeftOf(b).value, TopOf(b).value, WidthOf(b).value, HeightOf(b).value;
    ax < bx + bw + CollisionMargin && ax + aw + CollisionMargin > bx
    && ay < by0 + bh + CollisionMargin && ay + ah + CollisionMargin > by0
  }

  predicate AllResolvable(cs: seq<Box>) {
    forall i :: 0 <= i < |cs| ==> Resolvable(cs[i])
  }

  /** Some box of `ga` collides with some box of `gb`. */
  predicate AnyCollision(ga: seq<Box>, gb: seq<Box>)
    requires AllResolvable(ga) && AllResolvable(gb)
  {
    exists i, j :: 0 <= i < |ga| && 0 <= j < |gb| && Collide(ga[i], gb[j])
  }

  /** The test does not depend on which box is the left one. */
  lemma {:induction false} CollideSymmetric(a: Box, b: Box)
    requires Resolvable(a) && Resolvable(b)
    ensures Collide(a, b) <==> Collide(b, a)
  {
  }

  /** Boxes further apart than the margin, along either axis, do not collide;
      boxes that overlap do. */
  lemma {:induction false} CollideMeansClose(a: Box, b: Box)
    requires Resolvable(a) && Resolvable(b)
    ensures LeftOf(a).value + WidthOf(a).value + CollisionMargin <= LeftOf(b).value ==> !Collide(a, b)
    ensures TopOf(a).value + HeightOf(a).value + CollisionMargin <= TopOf(b).value ==> !Collide(a, b)
    ensures (WidthOf(a).value >= 0 && HeightOf(a).value >= 0 && WidthOf(b).value >= 0 && HeightOf(b).value >= 0
             && LeftOf(a) == LeftOf(b) && TopOf(a) == TopOf(b)) ==> Collide(a, b)
  {
  }

  // ---------------------------------------------------------------------------
  // Mix

  /** The centre `x + w / 2` lies left of `canvas_width / 2`; in integers,
      `2 x + w < canvas_width`. */
  predicate OnLeft(canvasWidth: int, c: Box) {
    Mirrorable(c) && 2 * LeftOf(c).value + WidthOf(c).value < canvasWidth
  }

  predicate OnRight(canvasWidth: int, c: Box) {
    Mirrorable(c) && 2 * LeftOf(c).value + WidthOf(c).value >= canvasWidth
  }

  /** The boxes of `cs` centred left of the midline, in their order. */
  function LeftHalf(canvasWidth: int, cs: seq<Box>): (r: seq<Box>)
    ensures |r| <= |cs|
    ensures AllResolvable(cs) ==> AllResolvable(r)
  {
    if cs == [] then []
    else
      var last := cs[|cs| - 1];
      LeftHalf(canvasWidth, cs[..|cs| - 1]) + (if OnLeft(canvasWidth, last) then [last] else [])
  }

  /** The boxes of `cs` centred on or right of the midline, in their order. */
  function RightHalf(canvasWidth: int, cs: seq<Box>): (r: seq<Box>)
    ensures |r| <= |cs|
    ensures AllResolvable(cs) ==> AllResolvable(r)
  {
    if cs == [] then []
    else
      var last := cs[|cs| - 1];
      RightHalf(canvasWidth, cs[..|cs| - 1]) + (if OnRight(canvasWidth, last) then [last] else [])
  }

  /** The left half holds exactly the boxes of the list that lie left of the
      midline, the right half exactly the others that can be read. */
  lemma {:induction false} HalvesMembers(canvasWidth: int, cs: seq<Box>)
    ensures forall c :: c in LeftHalf(canvasWidth, cs) <==> c in cs && OnLeft(canvasWidth, c)
    ensures forall c :: c in RightHalf(canvasWidth, cs) <==> c in cs && OnRight(canvasWidth, c)
    decreases |cs|
  {
    if cs != [] {
      var last := cs[|cs| - 1];
      assert cs == cs[..|cs| - 1] + [last];
      HalvesMembers(canvasWidth, cs[..|cs| - 1]);
    }
  }

  /** `_create_mix_variant`: the left boxes of `a` followed by the right boxes
      of `b`, refused when the halves collide, when fewer than five boxes
      remain, or when either half is empty. */
  function MixSpec(canvasWidth: int, a: seq<Box>, b: seq<Box>): Option<seq<Box>>
    requires AllResolvable(a) && AllResolvable(b)
  {
    var left := LeftHalf(canvasWidth, a);
    var right := RightHalf(canvasWidth, b);
    if AnyCollision(left, right) then None
    else if |left| + |right| < MinMixBoxes then None
    else if |left| == 0 || |right| == 0 then None
    else Some(left + right)
  }

  /** The midline splits every list of readable boxes: each box is on exactly
      one side, so the two halves together have as many boxes as the list. */
  lemma {:induction false} MidlinePartition(canvasWidth: int, cs: seq<Box>)
    requires forall i :: 0 <= i < |cs| ==> Mirrorable(cs[i])
    ensures |LeftHalf(canvasWidth, cs)| + |RightHalf(canvasWidth, cs)| == |cs|
    decreases |cs|
  {
    if cs != [] {
      MidlinePartition(canvasWidth, cs[..|cs| - 1]);
    }
  }

  /** A mix that is produced has at least five boxes, a non-empty left half
      from `a` and right half from `b`, in their original order, and no box
      of one half collides with a box of the other. */
  lemma {:induction false} MixSound(canvasWidth: int, a: seq<Box>, b: seq<Box>)
    requires AllResolvable(a) && AllResolvable(b)
    requires MixSpec(canvasWidth, a, b).Some?
    ensures var m := MixSpec(canvasWidth, a, b).value;
      var left := LeftHalf(canvasWidth, a);
      var right := RightHalf(canvasWidth, b);
      |m| >= MinMixBoxes && m == left + right && left != [] && right != []
      && (forall k :: 0 <= k < |left| ==> left[k] in a && OnLeft(canvasWidth, left[k]))
      && (forall k :: 0 <= k < |right| ==> right[k] in b && OnRight(canvasWidth, right[k]))
      && (forall i, j :: 0 <= i < |left| && 0 <= j < |right| ==> !Collide(left[i], right[j]))
  {
    var left := LeftHalf(canvasWidth, a);
    var right := RightHalf(canvasWidth, b);
    HalvesMembers(canvasWidth, a);
    HalvesMembers(canvasWidth, b);
    forall k | 0 <= k < |left| ensures left[k] in a && OnLeft(canvasWidth, left[k]) {
      assert left[k] in left;
    }
    forall k | 0 <= k < |right| ensures right[k] in b && OnRight(canvasWidth, right[k]) {
      assert right[k] in right;
    }
  }

  /** A mix is refused exactly when one of the three rules fires. */
  lemma {:induction false} MixNoneIff(canvasWidth: int, a: seq<Box>, b: seq<Box>)
    requires AllResolvable(a) && AllResolvable(b)
    ensures var left := LeftHalf(canvasWidth, a);
      var right := RightHalf(canvasWidth, b);
      MixSpec(canvasWidth, a, b).None? <==>
        AnyCollision(left, right) || |left| + |right| < MinMixBoxes || left == [] || right == []
  {
  }

  // ---------------------------------------------------------------------------
  // Shuffle

  /** The record `_create_shuffle_variant` takes from each box of a group:
      the four extents as read through `or`, and the rotation, 0 by default. */
  datatype Spatial = Spatial(x: Option<int>, y: Option<int>, w: Option<int>, h: Option<int>, rot: int)

  function SpatialOf(c: Box): Spatial {
    Spatial(LeftOf(c), TopOf(c), WidthOf(c), HeightOf(c), c.rotationDeg.GetOr(0))
  }

  /** Writes a record into a box: every position key the box has takes the
      record's value for its axis, keys it lacks stay absent, and the rotation
      is written only where the box has one. */
  function Apply(c: Box, p: Spatial): Box {
    c.(canvasX := if c.canvasX.Some? then p.x else None,
       x := if c.x.Some? then p.x else None,
       canvasY := if c.canvasY.Some? then p.y else None,
       y := if c.y.Some? then p.y else None,
       widthPx := if c.widthPx.Some? then p.w else None,
       w := if c.w.Some? then p.w else None,
       heightPx := if c.heightPx.Some? then p.h else None,
       h := if c.h.Some? then p.h else None,
       rotationDeg := if c.rotationDeg.Some? then Some(p.rot) else None)
  }

  /** A box with a key on every axis and a rotation takes on a record of
      readable non-zero extents completely: reading it back yields the record.
      Its id, role and size class never change. */
  lemma {:induction false} ApplyReceives(c: Box, p: Spatial)
    ensures Apply(c, p).id == c.id && Apply(c, p).role == c.role && Apply(c, p).sizeClass == c.sizeClass
    ensures (c.canvasX.Some? || c.x.Some?) && (c.canvasY.Some? || c.y.Some?)
            && (c.widthPx.Some? || c.w.Some?) && (c.heightPx.Some? || c.h.Some?) && c.rotationDeg.Some?
            && p.x.Some? && p.x.value != 0 && p.y.Some? && p.y.value != 0
            && p.w.Some? && p.w.value != 0 && p.h.Some? && p.h.value != 0
            ==> SpatialOf(Apply(c, p)) == p
  {
  }

  /** `c.get("role", "unknown")`. */
  function RoleOf(c: Box): string {
    c.role.GetOr("unknown")
  }

  /** One entry of the `groups` dict: a role and the indexes of its boxes. */
  datatype Group = Group(role: string, members: seq<nat>)

  /** The first entry at or after `k` that holds `role`, or `|gs|`. */
  function FindFrom(gs: seq<Group>, role: string, k: nat): (r: nat)
    requires k <= |gs|
    ensures k <= r <= |gs|
    ensures r < |gs| ==> gs[r].role == role
    ensures forall j :: k <= j < r ==> gs[j].role != role
    decreases |gs| - k
  {
    if k == |gs| then k
    else if gs[k].role == role then k
    else FindFrom(gs, role, k + 1)
  }

  /** The position of the entry for `role`, or `|gs|` when `role not in groups`. */
  function FindRole(gs: seq<Group>, role: string): (r: nat)
    ensures r <= |gs|
    ensures r < |gs| ==> gs[r].role == role
    ensures forall j :: 0 <= j < r ==> gs[j].role != role
  {
    FindFrom(gs, role, 0)
  }

  /** One step of the grouping loop: open the role's entry if needed, then
      append the index to it. */
  function AddMember(gs: seq<Group>, role: string, i: nat): seq<Group> {
    var k := FindRole(gs, role);
    if k == |gs| then gs + [Group(role, [i])]
    else gs[k := gs[k].(members := gs[k].members + [i])]
  }

  /** The `groups` dict after the first `n` boxes. */
  function GroupsOf(cs: seq<Box>, n: nat): seq<Group>
    requires n <= |cs|
  {
    if n == 0 then [] else AddMember(GroupsOf(cs, n - 1), RoleOf(cs[n - 1]), n - 1)
  }

  /** The indexes below `n` of the boxes with role `role`: increasing, and
      every such index is there. */
  function Indexes(cs: seq<Box>, n: nat, role: string): (r: seq<nat>)
    requires n <= |cs|
    ensures forall k :: 0 <= k < |r| ==> r[k] < n && RoleOf(cs[r[k]]) == role
    ensures forall k, l :: 0 <= k < l < |r| ==> r[k] < r[l]
    ensures forall i :: 0 <= i < n && RoleOf(cs[i]) == role ==> i in r
  {
    if n == 0 then []
    else Indexes(cs, n - 1, role) + (if RoleOf(cs[n - 1]) == role then [n - 1] else [])
  }

  lemma {:induction false} IndexesNone(cs: seq<Box>, n: nat, role: string)
    requires n <= |cs|
    requires forall i :: 0 <= i < n ==> RoleOf(cs[i]) != role
    ensures Indexes(cs, n, role) == []
    decreases n
  {
    if n > 0 {
      IndexesNone(cs, n - 1, role);
    }
  }

  /** `groups` partitions the boxes by role: one entry per role, in order of
      first appearance, each holding exactly the indexes of that role. */
  predicate Partition(cs: seq<Box>, n: nat, gs: seq<Group>)
    requires n <= |cs|
  {
    DistinctRoles(gs) && ExactMembers(cs, n, gs) && Covered(cs, n, gs)
  }

  predicate DistinctRoles(gs: seq<Group>) {
    forall a, b :: 0 <= a < b < |gs| ==> gs[a].role != gs[b].role
  }

  predicate ExactMembers(cs: seq<Box>, n: nat, gs: seq<Group>)
    requires n <= |cs|
  {
    forall g :: 0 <= g < |gs| ==> gs[g].members == Indexes(cs, n, gs[g].role) && gs[g].members != []
  }

  predicate Covered(cs: seq<Box>, n: nat, gs: seq<Group>)
    requires n <= |cs|
  {
    forall i :: 0 <= i < n ==> exists g :: 0 <= g < |gs| && gs[g].role == RoleOf(cs[i])
  }

  lemma {:induction false} GroupsPartition(cs: seq<Box>, n: nat)
    requires n <= |cs|
    ensures Partition(cs, n, GroupsOf(cs, n))
    decreases n
  {
    if n > 0 {
      GroupsPartition(cs, n - 1);
      var gs := GroupsOf(cs, n - 1);
      var role := RoleOf(cs[n - 1]);
      if FindRole(gs, role) == |gs| {
        PartitionNewRole(cs, n, gs);
      } else {
        PartitionOldRole(cs, n, gs);
      }
    }
  }

  /** The next box has a role not seen before: it opens a new entry. */
  lemma {:induction false} PartitionNewRole(cs: seq<Box>, n: nat, gs: seq<Group>)
    requires 0 < n <= |cs| && Partition(cs, n - 1, gs)
    requires FindRole(gs, RoleOf(cs[n - 1])) == |gs|
    ensures Partition(cs, n, gs + [Group(RoleOf(cs[n - 1]), [n - 1])])
  {
    var role := RoleOf(cs[n - 1]);
    NewRoleFirst(cs, n, gs);
    NewRoleMembers(cs, n, gs);
    NewRoleCovered(cs, n, gs);
    NewRoleDistinct(gs, role, [n - 1]);
  }

  /** A role not seen before is held by no earlier box, so its indexes are
      the new box alone. */
  lemma {:induction false} NewRoleFirst(cs: seq<Box>, n: nat, gs: seq<Group>)
    requires 0 < n <= |cs| && Covered(cs, n - 1, gs)
    requires FindRole(gs, RoleOf(cs[n - 1])) == |gs|
    ensures Indexes(cs, n, RoleOf(cs[n - 1])) == [n - 1]
  {
    var role := RoleOf(cs[n - 1]);
    forall i | 0 <= i < n - 1 ensures RoleOf(cs[i]) != role {
      var g :| 0 <= g < |gs| && gs[g].role == RoleOf(cs[i]);
      assert gs[g].role != role;
    }
    IndexesNone(cs, n - 1, role);
    assert Indexes(cs, n, role) == Indexes(cs, n - 1, role) + [n - 1];
  }

  lemma {:induction false} NewRoleDistinct(gs: seq<Group>, role: string, ms: seq<nat>)
    requires DistinctRoles(gs) && FindRole(gs, role) == |gs|
    ensures DistinctRoles(gs + [Group(role, ms)])
  {
    var ns := gs + [Group(role, ms)];
    forall a, b | 0 <= a < b < |ns| ensures ns[a].role != ns[b].role {
      assert ns[a] == gs[a];
    }
  }

  lemma {:induction false} NewRoleMembers(cs: seq<Box>, n: nat, gs: seq<Group>)
    requires 0 < n <= |cs| && ExactMembers(cs, n - 1, gs)
    requires forall g :: 0 <= g < |gs| ==> gs[g].role != RoleOf(cs[n - 1])
    requires Indexes(cs, n, RoleOf(cs[n - 1])) == [n - 1]
    ensures ExactMembers(cs, n, gs + [Group(RoleOf(cs[n - 1]), [n - 1])])
  {
    var role := RoleOf(cs[n - 1]);
    var ns := gs + [Group(role, [n - 1])];
    forall g | 0 <= g < |ns|
      ensures ns[g].members == Indexes(cs, n, ns[g].role) && ns[g].members != []
    {
      if g < |gs| {
        assert ns[g] == gs[g];
        assert Indexes(cs, n, gs[g].role) == Indexes(cs, n - 1, gs[g].role);
      }
    }
  }

  lemma {:induction false} NewRoleCovered(cs: seq<Box>, n: nat, gs: seq<Group>)
    requires 0 < n <= |cs| && Covered(cs, n - 1, gs)
    ensures Covered(cs, n, gs + [Group(RoleOf(cs[n - 1]), [n - 1])])
  {
    var ns := gs + [Group(RoleOf(cs[n - 1]), [n - 1])];
    forall i | 0 <= i < n ensures exists g :: 0 <= g < |ns| && ns[g].role == RoleOf(cs[i]) {
      if i == n - 1 {
        assert ns[|gs|].role == RoleOf(cs[i]);
      } else {
        var g :| 0 <= g < |gs| && gs[g].role == RoleOf(cs[i]);
        assert ns[g] == gs[g];
      }
    }
  }

  /** The next box has a role already seen: it joins that entry. */
  lemma PartitionOldRole(cs: seq<Box>, n: nat, gs: seq<Group>)
    requires 0 < n <= |cs| && Partition(cs, n - 1, gs)
    requires FindRole(gs, RoleOf(cs[n - 1])) < |gs|
    ensures var k := FindRole(gs, RoleOf(cs[n - 1]));
      Partition(cs, n, gs[k := gs[k].(members := gs[k].members + [n - 1])])
  {
    var k := FindRole(gs, RoleOf(cs[n - 1]));
    var ns := gs[k := gs[k].(members := gs[k].members + [n - 1])];
    OldRoleDistinct(gs, k, ns);
    OldRoleMembers(cs, n, gs, k, ns);
    OldRoleCovered(cs, n, gs, k, ns);
  }

  lemma OldRoleDistinct(gs: seq<Group>, k: nat, ns: seq<Group>)
    requires DistinctRoles(gs) && k < |gs| && |ns| == |gs|
    requires forall g :: 0 <= g < |gs| ==> ns[g].role == gs[g].role
    ensures DistinctRoles(ns)
  {
  }

  lemma OldRoleMembers(cs: seq<Box>, n: nat, gs: seq<Group>, k: nat, ns: seq<Group>)
    requires 0 < n <= |cs| && ExactMembers(cs, n - 1, gs) && DistinctRoles(gs)
    requires k < |gs| && gs[k].role == RoleOf(cs[n - 1])
    requires ns == gs[k := gs[k].(members := gs[k].members + [n - 1])]
    ensures ExactMembers(cs, n, ns)
  {
    var role := RoleOf(cs[n - 1]);
    forall g | 0 <= g < |ns|
      ensures ns[g].members == Indexes(cs, n, ns[g].role) && ns[g].members != []
    {
      if g != k {
        assert ns[g] == gs[g] && gs[g].role != role;
      }
    }
  }

  lemma OldRoleCovered(cs: seq<Box>, n: nat, gs: seq<Group>, k: nat, ns: seq<Group>)
    requires 0 < n <= |cs| && Covered(cs, n - 1, gs)
    requires k < |gs| && gs[k].role == RoleOf(cs[n - 1])
    requires ns == gs[k := gs[k].(members := gs[k].members + [n - 1])]
    ensures Covered(cs, n, ns)
  {
    forall i | 0 <= i < n ensures exists g :: 0 <= g < |ns| && ns[g].role == RoleOf(cs[i]) {
      if i == n - 1 {
        assert ns[k].role == RoleOf(cs[i]);
      } else {
        var g :| 0 <= g < |gs| && gs[g].role == RoleOf(cs[i]);
        assert ns[g].role == gs[g].role;
      }
    }
  }

  /** Every index of a group is a box of the list. */
  predicate InRange(ms: seq<nat>, n: nat) {
    forall k :: 0 <= k < |ms| ==> ms[k] < n
  }

  predicate MembersInRange(gs: seq<Group>, n: nat) {
    forall g :: 0 <= g < |gs| ==> InRange(gs[g].members, n)
  }

  /** The indexes of each group are listed in increasing order. */
  predicate MembersIncreasing(gs: seq<Group>) {
    forall g, k, l :: 0 <= g < |gs| && 0 <= k < l < |gs[g].members| ==> gs[g].members[k] < gs[g].members[l]
  }

  lemma {:induction false} GroupsWellFormed(cs: seq<Box>)
    ensures MembersInRange(GroupsOf(cs, |cs|), |cs|) && MembersIncreasing(GroupsOf(cs, |cs|))
  {
    GroupsPartition(cs, |cs|);
    var gs := GroupsOf(cs, |cs|);
    forall g | 0 <= g < |gs| ensures InRange(gs[g].members, |cs|) {
      assert gs[g].members == Indexes(cs, |cs|, gs[g].role);
    }
    forall g, k, l | 0 <= g < |gs| && 0 <= k < l < |gs[g].members|
      ensures gs[g].members[k] < gs[g].members[l]
    {
      assert gs[g].members == Indexes(cs, |cs|, gs[g].role);
    }
  }

  /** `p` lists each of `0 .. n-1` once: what `random.shuffle` does to the
      order of a list of length `n`. */
  predicate IsPerm(p: seq<nat>, n: nat) {
    |p| == n && InRange(p, n) && NoDup(p)
  }

  /** The shuffle of each group, as the permutation it applies. */
  predicate ValidPerms(gs: seq<Group>, perms: seq<seq<nat>>) {
    |perms| == |gs| && forall g :: 0 <= g < |gs| ==> IsPerm(perms[g], |gs[g].members|)
  }

  /** The list `s` reordered by `p`: entry `k` is `s[p[k]]`. */
  function Permute<T>(s: seq<T>, p: seq<nat>): seq<T>
    requires InRange(p, |s|)
  {
    seq(|p|, k requires 0 <= k < |p| => s[p[k]])
  }

  /** The `props` list of a group. */
  function Props(cs: seq<Box>, ms: seq<nat>): seq<Spatial>
    requires InRange(ms, |cs|)
  {
    seq(|ms|, k requires 0 <= k < |ms| => SpatialOf(cs[ms[k]]))
  }

  /** The apply-back loop after its first `k` rounds. */
  function WriteBack(cs: seq<Box>, ms: seq<nat>, ps: seq<Spatial>, k: nat): (r: seq<Box>)
    requires InRange(ms, |cs|) && |ps| == |ms| && k <= |ms|
    ensures |r| == |cs|
  {
    if k == 0 then cs
    else
      var w := WriteBack(cs, ms, ps, k - 1);
      w[ms[k - 1] := Apply(w[ms[k - 1]], ps[k - 1])]
  }

  /** One group shuffled: its records reordered by `perm` and written back. */
  function ShuffleGroup(cs: seq<Box>, ms: seq<nat>, perm: seq<nat>): (r: seq<Box>)
    requires InRange(ms, |cs|) && IsPerm(perm, |ms|)
    ensures |r| == |cs|
  {
    WriteBack(cs, ms, Permute(Props(cs, ms), perm), |ms|)
  }

  /** The loop over the groups after its first `t` rounds: a group with more
      than one box is shuffled, any other is skipped. */
  function ShuffleUpTo(cs: seq<Box>, gs: seq<Group>, perms: seq<seq<nat>>, t: nat): (r: seq<Box>)
    requires t <= |gs| && ValidPerms(gs, perms) && MembersInRange(gs, |cs|)
    ensures |r| == |cs|
  {
    if t == 0 then cs
    else
      var prev := ShuffleUpTo(cs, gs, perms, t - 1);
      if |gs[t - 1].members| > 1 then ShuffleGroup(prev, gs[t - 1].members, perms[t - 1]) else prev
  }

  /** Some role has more than one box. */
  predicate Swappable(gs: seq<Group>) {
    exists g :: 0 <= g < |gs| && |gs[g].members| > 1
  }

  /** One of the first `t` roles has more than one box. */
  predicate SwappableBelow(gs: seq<Group>, t: nat) {
    exists g :: 0 <= g < t && g < |gs| && |gs[g].members| > 1
  }

  /** `_create_shuffle_variant`, with `perms[g]` the outcome of
      `random.shuffle` for group `g`: `None` when no role has two boxes. */
  function ShuffleSpec(cs: seq<Box>, perms: seq<seq<nat>>): Option<seq<Box>>
    requires ValidPerms(GroupsOf(cs, |cs|), perms)
  {
    var gs := GroupsOf(cs, |cs|);
    GroupsWellFormed(cs);
    if Swappable(gs) then Some(ShuffleUpTo(cs, gs, perms, |gs|)) else None
  }

  /** After `k` rounds of the apply-back loop, each of the first `k` listed
      boxes holds its new record. */
  predicate WrittenAt(r: seq<Box>, cs: seq<Box>, ms: seq<nat>, ps: seq<Spatial>, k: nat)
    requires InRange(ms, |cs|) && |ps| == |ms| && k <= |ms| && |r| == |cs|
  {
    forall j :: 0 <= j < k ==> r[ms[j]] == Apply(cs[ms[j]], ps[j])
  }

  /** ... and every other box is untouched. */
  predicate KeptOutside(r: seq<Box>, cs: seq<Box>, ms: seq<nat>, k: nat)
    requires k <= |ms| && |r| == |cs|
  {
    forall i :: 0 <= i < |cs| && i !in ms[..k] ==> r[i] == cs[i]
  }

  lemma {:induction false} WriteBackSpec(cs: seq<Box>, ms: seq<nat>, ps: seq<Spatial>, k: nat)
    requires InRange(ms, |cs|) && |ps| == |ms| && k <= |ms| && NoDup(ms)
    ensures WrittenAt(WriteBack(cs, ms, ps, k), cs, ms, ps, k)
    ensures KeptOutside(WriteBack(cs, ms, ps, k), cs, ms, k)
    decreases k
  {
    if k > 0 {
      WriteBackSpec(cs, ms, ps, k - 1);
      var w := WriteBack(cs, ms, ps, k - 1);
      var r := WriteBack(cs, ms, ps, k);
      var m := ms[k - 1];
      var pre := ms[..k - 1];
      forall j | 0 <= j < |pre| ensures pre[j] != m {
        assert ms[j] != ms[k - 1];
      }
      assert m !in pre;
      assert w[m] == cs[m];
      forall j | 0 <= j < k ensures r[ms[j]] == Apply(cs[ms[j]], ps[j]) {
        if j < k - 1 {
          assert ms[j] != m;
        }
      }
      forall i | 0 <= i < |cs| && i !in ms[..k] ensures r[i] == cs[i] {
        assert ms[..k] == ms[..k - 1] + [m];
      }
    }
  }

  /** Group `h` as the shuffle leaves it in `r`: when it has more than one
      box, box `ms[k]` holds the record of box `ms[perm[k]]`; otherwise its
      box is untouched. */
  predicate GroupDone(cs: seq<Box>, gs: seq<Group>, perms: seq<seq<nat>>, h: nat, r: seq<Box>)
    requires ValidPerms(gs, perms) && MembersInRange(gs, |cs|) && h < |gs| && |r| == |cs|
  {
    var ms := gs[h].members;
    if |ms| > 1 then
      forall k :: 0 <= k < |ms| ==> r[ms[k]] == Apply(cs[ms[k]], SpatialOf(cs[ms[perms[h][k]]]))
    else
      forall k :: 0 <= k < |ms| ==> r[ms[k]] == cs[ms[k]]
  }

  predicate DoneBelow(cs: seq<Box>, gs: seq<Group>, perms: seq<seq<nat>>, t: nat, r: seq<Box>)
    requires ValidPerms(gs, perms) && MembersInRange(gs, |cs|) && t <= |gs| && |r| == |cs|
  {
    forall h :: 0 <= h < t ==> GroupDone(cs, gs, perms, h, r)
  }

  /** The boxes whose group comes at or after `t` are untouched. */
  predicate UntouchedFrom(cs: seq<Box>, gs: seq<Group>, t: nat, r: seq<Box>)
    requires |r| == |cs|
  {
    forall i :: 0 <= i < |cs| && FindRole(gs, RoleOf(cs[i])) >= t ==> r[i] == cs[i]
  }

  /** Every listed index is a box of the group's role, and that role leads
      back to the group. */
  predicate Indexed(cs: seq<Box>, gs: seq<Group>) {
    forall h, k :: 0 <= h < |gs| && 0 <= k < |gs[h].members| ==>
      gs[h].members[k] < |cs| && RoleOf(cs[gs[h].members[k]]) == gs[h].role && FindRole(gs, gs[h].role) == h
  }

  lemma {:induction false} PartitionIndexed(cs: seq<Box>, gs: seq<Group>)
    requires Partition(cs, |cs|, gs)
    ensures Indexed(cs, gs)
  {
    forall h, k | 0 <= h < |gs| && 0 <= k < |gs[h].members|
      ensures gs[h].members[k] < |cs| && RoleOf(cs[gs[h].members[k]]) == gs[h].role && FindRole(gs, gs[h].role) == h
    {
      assert gs[h].members == Indexes(cs, |cs|, gs[h].role);
    }
  }

  /** The boxes of group `h` are exactly those whose role leads to entry `h`. */
  lemma {:induction false} MemberOfGroup(cs: seq<Box>, gs: seq<Group>, h: nat, m: nat)
    requires Indexed(cs, gs) && h < |gs| && m in gs[h].members
    ensures m < |cs| && RoleOf(cs[m]) == gs[h].role && FindRole(gs, RoleOf(cs[m])) == h
  {
    var k :| 0 <= k < |gs[h].members| && gs[h].members[k] == m;
  }

  /** A property of `r` at the boxes of group `h` carries over to any list
      that agrees with `r` there. */
  lemma {:induction false} GroupDoneFrame(cs: seq<Box>, gs: seq<Group>, perms: seq<seq<nat>>, h: nat, r: seq<Box>, r2: seq<Box>)
    requires ValidPerms(gs, perms) && MembersInRange(gs, |cs|) && h < |gs| && |r| == |cs| == |r2|
    requires forall k :: 0 <= k < |gs[h].members| ==> r2[gs[h].members[k]] == r[gs[h].members[k]]
    requires GroupDone(cs, gs, perms, h, r)
    ensures GroupDone(cs, gs, perms, h, r2)
  {
  }

  predicate ShuffleFrame(cs: seq<Box>, gs: seq<Group>, perms: seq<seq<nat>>)
  {
    Indexed(cs, gs) && ValidPerms(gs, perms)
    && MembersInRange(gs, |cs|) && MembersIncreasing(gs)
  }

  /** The loop over the groups keeps its invariant: groups already visited
      are done, later ones untouched. */
  lemma {:induction false} ShuffleUpToSpec(cs: seq<Box>, gs: seq<Group>, perms: seq<seq<nat>>, t: nat)
    requires ShuffleFrame(cs, gs, perms) && t <= |gs|
    ensures DoneBelow(cs, gs, perms, t, ShuffleUpTo(cs, gs, perms, t))
    ensures UntouchedFrom(cs, gs, t, ShuffleUpTo(cs, gs, perms, t))
    decreases t
  {
    if t > 0 {
      ShuffleUpToSpec(cs, gs, perms, t - 1);
      if |gs[t - 1].members| > 1 {
        ShuffleStep(cs, gs, perms, t);
      } else {
        SkipStep(cs, gs, perms, t);
      }
    }
  }

  lemma {:induction false} SkipStep(cs: seq<Box>, gs: seq<Group>, perms: seq<seq<nat>>, t: nat)
    requires ShuffleFrame(cs, gs, perms) && 0 < t <= |gs| && |gs[t - 1].members| <= 1
    requires DoneBelow(cs, gs, perms, t - 1, ShuffleUpTo(cs, gs, perms, t - 1))
    requires UntouchedFrom(cs, gs, t - 1, ShuffleUpTo(cs, gs, perms, t - 1))
    ensures DoneBelow(cs, gs, perms, t, ShuffleUpTo(cs, gs, perms, t))
    ensures UntouchedFrom(cs, gs, t, ShuffleUpTo(cs, gs, perms, t))
  {
    var r := ShuffleUpTo(cs, gs, perms, t);
    assert r == ShuffleUpTo(cs, gs, perms, t - 1);
    var ms := gs[t - 1].members;
    forall k | 0 <= k < |ms| ensures r[ms[k]] == cs[ms[k]] {
      MemberOfGroup(cs, gs, t - 1, ms[k]);
    }
    assert GroupDone(cs, gs, perms, t - 1, r);
    DoneBelowExtend(cs, gs, perms, t, r);
  }

  lemma {:induction false} ShuffleStep(cs: seq<Box>, gs: seq<Group>, perms: seq<seq<nat>>, t: nat)
    requires ShuffleFrame(cs, gs, perms) && 0 < t <= |gs| && |gs[t - 1].members| > 1
    requires DoneBelow(cs, gs, perms, t - 1, ShuffleUpTo(cs, gs, perms, t - 1))
    requires UntouchedFrom(cs, gs, t - 1, ShuffleUpTo(cs, gs, perms, t - 1))
    ensures DoneBelow(cs, gs, perms, t, ShuffleUpTo(cs, gs, perms, t))
    ensures UntouchedFrom(cs, gs, t, ShuffleUpTo(cs, gs, perms, t))
  {
    var h := t - 1;
    var prev := ShuffleUpTo(cs, gs, perms, h);
    var r := ShuffleUpTo(cs, gs, perms, t);
    var ms := gs[h].members;
    var ps := Permute(Props(prev, ms), perms[h]);
    assert r == WriteBack(prev, ms, ps, |ms|);
    assert NoDup(ms);
    WriteBackSpec(prev, ms, ps, |ms|);
    assert ms[..|ms|] == ms;
    ShuffledGroupDone(cs, gs, perms, h, prev, r);
    EarlierGroupsKept(cs, gs, perms, h, prev, r);
    DoneBelowExtend(cs, gs, perms, t, r);
    LaterBoxesKept(cs, gs, perms, h, prev, r);
  }

  lemma {:induction false} DoneBelowExtend(cs: seq<Box>, gs: seq<Group>, perms: seq<seq<nat>>, t: nat, r: seq<Box>)
    requires ValidPerms(gs, perms) && MembersInRange(gs, |cs|) && 0 < t <= |gs| && |r| == |cs|
    requires DoneBelow(cs, gs, perms, t - 1, r) && GroupDone(cs, gs, perms, t - 1, r)
    ensures DoneBelow(cs, gs, perms, t, r)
  {
    forall h | 0 <= h < t ensures GroupDone(cs, gs, perms, h, r) {
      if h < t - 1 {
        assert GroupDone(cs, gs, perms, h, r);
      }
    }
  }

  lemma {:induction false} ShuffledGroupDone(cs: seq<Box>, gs: seq<Group>, perms: seq<seq<nat>>, h: nat, prev: seq<Box>, r: seq<Box>)
    requires ShuffleFrame(cs, gs, perms) && h < |gs| && |gs[h].members| > 1 && |prev| == |r| == |cs|
    requires WrittenAt(r, prev, gs[h].members, Permute(Props(prev, gs[h].members), perms[h]), |gs[h].members|)
    requires UntouchedFrom(cs, gs, h, prev)
    ensures GroupDone(cs, gs, perms, h, r)
  {
    var ms := gs[h].members;
    var perm := perms[h];
    var ps := Permute(Props(prev, ms), perm);
    forall k | 0 <= k < |ms|
      ensures r[ms[k]] == Apply(cs[ms[k]], SpatialOf(cs[ms[perm[k]]]))
    {
      MemberOfGroup(cs, gs, h, ms[k]);
      MemberOfGroup(cs, gs, h, ms[perm[k]]);
      assert ps[k] == SpatialOf(prev[ms[perm[k]]]);
    }
  }

  lemma {:induction false} EarlierGroupsKept(cs: seq<Box>, gs: seq<Group>, perms: seq<seq<nat>>, h: nat, prev: seq<Box>, r: seq<Box>)
    requires ShuffleFrame(cs, gs, perms) && h < |gs| && |prev| == |r| == |cs|
    requires KeptOutside(r, prev, gs[h].members, |gs[h].members|) && gs[h].members[..|gs[h].members|] == gs[h].members
    requires DoneBelow(cs, gs, perms, h, prev)
    ensures DoneBelow(cs, gs, perms, h, r)
  {
    forall h2 | 0 <= h2 < h ensures GroupDone(cs, gs, perms, h2, r) {
      var ms2 := gs[h2].members;
      forall k | 0 <= k < |ms2| ensures r[ms2[k]] == prev[ms2[k]] {
        OutsideGroup(cs, gs, h, h2, ms2[k]);
      }
      GroupDoneFrame(cs, gs, perms, h2, prev, r);
    }
  }

  lemma {:induction false} LaterBoxesKept(cs: seq<Box>, gs: seq<Group>, perms: seq<seq<nat>>, h: nat, prev: seq<Box>, r: seq<Box>)
    requires ShuffleFrame(cs, gs, perms) && h < |gs| && |prev| == |r| == |cs|
    requires KeptOutside(r, prev, gs[h].members, |gs[h].members|) && gs[h].members[..|gs[h].members|] == gs[h].members
    requires UntouchedFrom(cs, gs, h, prev)
    ensures UntouchedFrom(cs, gs, h + 1, r)
  {
    var ms := gs[h].members;
    forall i | 0 <= i < |cs| && FindRole(gs, RoleOf(cs[i])) >= h + 1 ensures r[i] == cs[i] {
      if i in ms {
        MemberOfGroup(cs, gs, h, i);
      }
      assert i !in ms;
    }
  }

  /** A box of group `h2` is not a box of another group `h`. */
  lemma {:induction false} OutsideGroup(cs: seq<Box>, gs: seq<Group>, h: nat, h2: nat, m: nat)
    requires Indexed(cs, gs) && h < |gs| && h2 < |gs| && h != h2 && m in gs[h2].members
    ensures m !in gs[h].members
  {
    MemberOfGroup(cs, gs, h2, m);
    if m in gs[h].members {
      MemberOfGroup(cs, gs, h, m);
      assert false;
    }
  }

  /** A shuffle changes no box's id or role, and gives each box either its
      own state or the spatial record of a box with the same role. */
  predicate WithinRole(cs: seq<Box>, r: seq<Box>) {
    |r| == |cs|
    && forall i :: 0 <= i < |cs| ==>
         r[i].id == cs[i].id && r[i].role == cs[i].role
         && (r[i] == cs[i] || exists j :: 0 <= j < |cs| && RoleOf(cs[j]) == RoleOf(cs[i]) && r[i] == Apply(cs[i], SpatialOf(cs[j])))
  }

  /** What `_create_shuffle_variant` promises: each group of two or more
      boxes has their records reordered by its permutation, every other box
      is left as it was. */
  lemma {:induction false} ShuffleGroupsDone(cs: seq<Box>, perms: seq<seq<nat>>)
    requires ValidPerms(GroupsOf(cs, |cs|), perms)
    requires ShuffleSpec(cs, perms).Some?
    ensures |ShuffleSpec(cs, perms).value| == |cs| && MembersInRange(GroupsOf(cs, |cs|), |cs|)
    ensures DoneBelow(cs, GroupsOf(cs, |cs|), perms, |GroupsOf(cs, |cs|)|, ShuffleSpec(cs, perms).value)
  {
    var gs := GroupsOf(cs, |cs|);
    GroupsPartition(cs, |cs|);
    PartitionIndexed(cs, gs);
    GroupsWellFormed(cs);
    ShuffleUpToSpec(cs, gs, perms, |gs|);
  }

  /** Boxes swap positions only with boxes of their own role. */
  lemma {:induction false} ShuffleWithinRole(cs: seq<Box>, perms: seq<seq<nat>>)
    requires ValidPerms(GroupsOf(cs, |cs|), perms)
    requires ShuffleSpec(cs, perms).Some?
    ensures WithinRole(cs, ShuffleSpec(cs, perms).value)
  {
    var gs := GroupsOf(cs, |cs|);
    GroupsPartition(cs, |cs|);
    PartitionIndexed(cs, gs);
    GroupsWellFormed(cs);
    ShuffleUpToSpec(cs, gs, perms, |gs|);
    DoneWithinRole(cs, gs, perms, ShuffleUpTo(cs, gs, perms, |gs|));
  }

  lemma {:induction false} DoneWithinRole(cs: seq<Box>, gs: seq<Group>, perms: seq<seq<nat>>, r: seq<Box>)
    requires ShuffleFrame(cs, gs, perms) && Partition(cs, |cs|, gs) && |r| == |cs|
    requires DoneBelow(cs, gs, perms, |gs|, r)
    ensures WithinRole(cs, r)
  {
    forall i | 0 <= i < |cs|
      ensures r[i].id == cs[i].id && r[i].role == cs[i].role
      ensures r[i] == cs[i] || exists j :: 0 <= j < |cs| && RoleOf(cs[j]) == RoleOf(cs[i]) && r[i] == Apply(cs[i], SpatialOf(cs[j]))
    {
      var h :| 0 <= h < |gs| && gs[h].role == RoleOf(cs[i]);
      var ms := gs[h].members;
      assert ms == Indexes(cs, |cs|, gs[h].role);
      var k :| 0 <= k < |ms| && ms[k] == i;
      assert GroupDone(cs, gs, perms, h, r);
      MemberWithinRole(cs, gs, perms, r, h, k);
    }
  }

  /** The `k`-th box of a finished group keeps its id and role and holds its
      own record or that of a box of its role. */
  lemma {:induction false} MemberWithinRole(cs: seq<Box>, gs: seq<Group>, perms: seq<seq<nat>>, r: seq<Box>, h: nat, k: nat)
    requires ShuffleFrame(cs, gs, perms) && |r| == |cs| && h < |gs| && k < |gs[h].members|
    requires GroupDone(cs, gs, perms, h, r)
    ensures var i := gs[h].members[k];
      r[i].id == cs[i].id && r[i].role == cs[i].role
      && (r[i] == cs[i] || exists j :: 0 <= j < |cs| && RoleOf(cs[j]) == RoleOf(cs[i]) && r[i] == Apply(cs[i], SpatialOf(cs[j])))
  {
    var ms := gs[h].members;
    var i := ms[k];
    MemberOfGroup(cs, gs, h, i);
    if |ms| > 1 {
      var j := ms[perms[h][k]];
      MemberOfGroup(cs, gs, h, j);
      assert r[i] == Apply(cs[i], SpatialOf(cs[j]));
    }
  }

  /** No shuffle is produced exactly when no two boxes share a role. */
  lemma {:induction false} ShuffleNoneIff(cs: seq<Box>, perms: seq<seq<nat>>)
    requires ValidPerms(GroupsOf(cs, |cs|), perms)
    ensures ShuffleSpec(cs, perms).None? <==>
      forall i, j :: 0 <= i < j < |cs| ==> RoleOf(cs[i]) != RoleOf(cs[j])
  {
    GroupsPartition(cs, |cs|);
    GroupsWellFormed(cs);
    SwappableIff(cs, GroupsOf(cs, |cs|));
  }

  lemma {:induction false} SwappableIff(cs: seq<Box>, gs: seq<Group>)
    requires Partition(cs, |cs|, gs) && MembersIncreasing(gs)
    ensures !Swappable(gs) <==> forall i, j :: 0 <= i < j < |cs| ==> RoleOf(cs[i]) != RoleOf(cs[j])
  {
    PartitionIndexed(cs, gs);
    if Swappable(gs) {
      var g :| 0 <= g < |gs| && |gs[g].members| > 1;
      var ms := gs[g].members;
      MemberOfGroup(cs, gs, g, ms[0]);
      MemberOfGroup(cs, gs, g, ms[1]);
      assert ms[0] < ms[1] && RoleOf(cs[ms[0]]) == RoleOf(cs[ms[1]]);
    } else {
      forall i, j | 0 <= i < j < |cs| ensures RoleOf(cs[i]) != RoleOf(cs[j]) {
        SharedRoleGroup(cs, gs, i, j);
      }
    }
  }

  /** Two boxes of one role share a group, which then has two members. */
  lemma {:induction false} SharedRoleGroup(cs: seq<Box>, gs: seq<Group>, i: nat, j: nat)
    requires Partition(cs, |cs|, gs) && i < j < |cs| && !Swappable(gs)
    ensures RoleOf(cs[i]) != RoleOf(cs[j])
  {
    assert Covered(cs, |cs|, gs);
    assert exists g :: 0 <= g < |gs| && gs[g].role == RoleOf(cs[i]);
    var g :| 0 <= g < |gs| && gs[g].role == RoleOf(cs[i]);
    var ms := gs[g].members;
    assert ms == Indexes(cs, |cs|, gs[g].role);
    assert |ms| <= 1;
    assert i in ms;
    SingleMember(ms, i);
    assert j !in ms;
  }

  lemma SingleMember(ms: seq<nat>, i: nat)
    requires |ms| <= 1 && i in ms
    ensures ms == [i]
  {
  }

  // ---------------------------------------------------------------------------
  // The shuffle keeps each group's records

  /** `[0, 1, ..., n-1]`. */
  function Range(n: nat): (r: seq<nat>)
    ensures |r| == n && forall k :: 0 <= k < n ==> r[k] == k
  {
    seq(n, k requires 0 <= k < n => k)
  }

  lemma {:induction false} PermuteAppend<T>(s: seq<T>, a: seq<nat>, b: seq<nat>)
    requires InRange(a, |s|) && InRange(b, |s|)
    ensures InRange(a + b, |s|) && Permute(s, a + b) == Permute(s, a) + Permute(s, b)
  {
    assert InRange(a + b, |s|) by {
      forall k | 0 <= k < |a + b| ensures (a + b)[k] < |s| {
        if k >= |a| {
          assert (a + b)[k] == b[k - |a|];
        }
      }
    }
  }

  /** Reordering by index lists that hold the same indexes gives lists that
      hold the same values. */
  lemma {:induction false} PermuteSameIndexes<T>(s: seq<T>, p: seq<nat>, q: seq<nat>)
    requires InRange(p, |s|) && InRange(q, |s|) && multiset(p) == multiset(q)
    ensures multiset(Permute(s, p)) == multiset(Permute(s, q))
    decreases |p|
  {
    if p == [] {
      assert |q| == |multiset(q)| == 0;
    } else {
      var x := p[0];
      assert x in multiset(q);
      var j :| 0 <= j < |q| && q[j] == x;
      var q1, q2 := q[..j], q[j + 1..];
      assert q == q1 + [x] + q2;
      assert InRange(q1, |s|) && InRange(q2, |s|);
      RemoveFirst(p, q1, q2);
      PermuteSameIndexes(s, p[1..], q1 + q2);
      PermuteSplit(s, p, q1, q2);
    }
  }

  lemma RemoveFirst(p: seq<nat>, q1: seq<nat>, q2: seq<nat>)
    requires p != [] && multiset(p) == multiset(q1 + [p[0]] + q2)
    ensures multiset(p[1..]) == multiset(q1 + q2)
  {
    assert p == [p[0]] + p[1..];
    assert multiset(p) == multiset{p[0]} + multiset(p[1..]);
    assert multiset(q1 + [p[0]] + q2) == multiset(q1) + multiset{p[0]} + multiset(q2);
    assert multiset(q1 + q2) == multiset(q1) + multiset(q2);
    forall y ensures multiset(p[1..])[y] == multiset(q1 + q2)[y] {
      assert multiset(p)[y] == multiset(q1 + [p[0]] + q2)[y];
    }
  }

  lemma PermuteSplit<T>(s: seq<T>, p: seq<nat>, q1: seq<nat>, q2: seq<nat>)
    requires p != [] && InRange(p, |s|) && InRange(q1, |s|) && InRange(q2, |s|)
    requires InRange(q1 + q2, |s|) && InRange(p[1..], |s|)
    requires multiset(Permute(s, p[1..])) == multiset(Permute(s, q1 + q2))
    ensures InRange(q1 + [p[0]] + q2, |s|)
    ensures multiset(Permute(s, p)) == multiset(Permute(s, q1 + [p[0]] + q2))
  {
    var x := p[0];
    assert InRange([x], |s|);
    PermuteAppend(s, q1, q2);
    PermuteAppend(s, q1, [x]);
    PermuteAppend(s, q1 + [x], q2);
    assert Permute(s, p) == [s[x]] + Permute(s, p[1..]);
  }

  /** A permutation of `0 .. n-1` holds exactly the indexes `0 .. n-1`. */
  lemma {:induction false} PermIndexes(p: seq<nat>, n: nat)
    requires IsPerm(p, n)
    ensures multiset(p) == multiset(Range(n))
  {
    var all := Range(n);
    assert NoDup(all);
    ElementsCard(p);
    ElementsCard(all);
    assert Elements(p) <= Elements(all) by {
      forall x | x in Elements(p) ensures x in Elements(all) {
        assert all[x] == x;
      }
    }
    SubsetEqual(Elements(p), Elements(all));
    SameElementsPermutation(p, all);
  }

  /** `random.shuffle` only reorders: the shuffled list holds the same values
      as many times each. */
  lemma {:induction false} PermuteMultiset<T>(s: seq<T>, p: seq<nat>)
    requires IsPerm(p, |s|)
    ensures |Permute(s, p)| == |s| && multiset(Permute(s, p)) == multiset(s)
  {
    PermIndexes(p, |s|);
    PermuteSameIndexes(s, p, Range(|s|));
    assert Permute(s, Range(|s|)) == s;
  }

  /** Each group of two or more boxes receives its own records, reordered: box
      `ms[k]` takes record `ps[k]`, and `ps` holds the group's records with
      their multiplicities. */
  lemma {:induction false} ShuffleKeepsRecords(cs: seq<Box>, perms: seq<seq<nat>>, g: nat)
    requires ValidPerms(GroupsOf(cs, |cs|), perms)
    requires ShuffleSpec(cs, perms).Some?
    requires g < |GroupsOf(cs, |cs|)| && |GroupsOf(cs, |cs|)[g].members| > 1
    ensures MembersInRange(GroupsOf(cs, |cs|), |cs|)
    ensures var ms := GroupsOf(cs, |cs|)[g].members;
      var ps := Permute(Props(cs, ms), perms[g]);
      var r := ShuffleSpec(cs, perms).value;
      |ps| == |ms| && multiset(ps) == multiset(Props(cs, ms)) && |r| == |cs|
      && forall k :: 0 <= k < |ms| ==> r[ms[k]] == Apply(cs[ms[k]], ps[k])
  {
    var gs := GroupsOf(cs, |cs|);
    ShuffleGroupsDone(cs, perms);
    var r := ShuffleSpec(cs, perms).value;
    var ms := gs[g].members;
    var ps := Permute(Props(cs, ms), perms[g]);
    PermuteMultiset(Props(cs, ms), perms[g]);
    assert GroupDone(cs, gs, perms, g, r);
    forall k | 0 <= k < |ms| ensures r[ms[k]] == Apply(cs[ms[k]], ps[k]) {
      assert ps[k] == SpatialOf(cs[ms[perms[g][k]]]);
    }
  }

  /** A box every record lands on unchanged: a key on every axis, a rotation,
      and extents that `or` reads back (non-zero). */
  predicate Complete(c: Box) {
    (c.canvasX.Some? || c.x.Some?) && (c.canvasY.Some? || c.y.Some?)
    && (c.widthPx.Some? || c.w.Some?) && (c.heightPx.Some? || c.h.Some?) && c.rotationDeg.Some?
    && var p := SpatialOf(c);
    p.x.Some? && p.x.value != 0 && p.y.Some? && p.y.value != 0
    && p.w.Some? && p.w.value != 0 && p.h.Some? && p.h.value != 0
  }

  /** When every box of a group is complete, reading the group back after the
      shuffle gives the same records, with the same multiplicities. */
  lemma {:induction false} ShufflePermutesGroup(cs: seq<Box>, perms: seq<seq<nat>>, g: nat)
    requires ValidPerms(GroupsOf(cs, |cs|), perms)
    requires ShuffleSpec(cs, perms).Some?
    requires g < |GroupsOf(cs, |cs|)| && |GroupsOf(cs, |cs|)[g].members| > 1
    requires MembersInRange(GroupsOf(cs, |cs|), |cs|)
    requires forall k :: 0 <= k < |GroupsOf(cs, |cs|)[g].members| ==> Complete(cs[GroupsOf(cs, |cs|)[g].members[k]])
    ensures |ShuffleSpec(cs, perms).value| == |cs|
    ensures var ms := GroupsOf(cs, |cs|)[g].members;
      multiset(Props(ShuffleSpec(cs, perms).value, ms)) == multiset(Props(cs, ms))
  {
    ShuffleKeepsRecords(cs, perms, g);
    var gs := GroupsOf(cs, |cs|);
    var r := ShuffleSpec(cs, perms).value;
    var ms := gs[g].members;
    var ps := Permute(Props(cs, ms), perms[g]);
    forall k | 0 <= k < |ms| ensures Props(r, ms)[k] == ps[k] {
      var j := perms[g][k];
      assert ps[k] == SpatialOf(cs[ms[j]]);
      assert Complete(cs[ms[j]]) && Complete(cs[ms[k]]);
      ApplyReceives(cs[ms[k]], ps[k]);
    }
    assert Props(r, ms) == ps;
  }

  /** A shuffle that is produced holds every box, so it is never the empty
      list that `if shuffled:` would skip. */
  lemma {:induction false} ShuffleNonEmpty(cs: seq<Box>, perms: seq<seq<nat>>)
    requires ValidPerms(GroupsOf(cs, |cs|), perms)
    requires ShuffleSpec(cs, perms).Some?
    ensures ShuffleSpec(cs, perms).value != []
  {
    var gs := GroupsOf(cs, |cs|);
    GroupsWellFormed(cs);
    var g :| 0 <= g < |gs| && |gs[g].members| > 1;
    assert gs[g].members[0] < |cs|;
  }

  /** Likewise a mix that is produced has boxes from both halves. */
  lemma {:induction false} MixNonEmpty(canvasWidth: int, a: seq<Box>, b: seq<Box>)
    requires AllResolvable(a) && AllResolvable(b)
    requires MixSpec(canvasWidth, a, b).Some?
    ensures MixSpec(canvasWidth, a, b).value != []
  {
    MixSound(canvasWidth, a, b);
  }

  // ---------------------------------------------------------------------------
  // The remixes of a set of presets

  /** Every box of every base layout has a readable left edge and width,
      the two values the mirror does arithmetic on. The shuffle reads nothing
      arithmetically, so this is all the first loop of `generate_remixes`
      needs. */
  predicate BasesMirrorable(bases: seq<Layout>) {
    forall i, k :: 0 <= i < |bases| && 0 <= k < |bases[i].containers| ==> Mirrorable(bases[i].containers[k])
  }

  /** Every box of every base layout can be read: the mixes also compare
      tops and heights in the collision test. */
  predicate Remixable(bases: seq<Layout>) {
    forall i :: 0 <= i < |bases| ==> AllResolvable(bases[i].containers)
  }

  /** The mixes need more of a box than the mirror does. */
  lemma RemixableMirrorable(bases: seq<Layout>)
    requires Remixable(bases)
    ensures BasesMirrorable(bases)
  {
    forall i, k | 0 <= i < |bases| && 0 <= k < |bases[i].containers|
      ensures Mirrorable(bases[i].containers[k])
    {
      assert AllResolvable(bases[i].containers);
    }
  }

  /** `perms[i]` holds the outcomes of `random.shuffle` for base `i`. */
  predicate ShufflesFor(bases: seq<Layout>, perms: seq<seq<seq<nat>>>) {
    |perms| == |bases|
    && forall i :: 0 <= i < |bases| ==>
         ValidPerms(GroupsOf(bases[i].containers, |bases[i].containers|), perms[i])
  }

  /** The mirrors of the first `n` bases. */
  function MirrorTable(canvasWidth: int, bases: seq<Layout>, n: nat): (r: seq<seq<Box>>)
    requires BasesMirrorable(bases) && n <= |bases|
    ensures |r| == n
  {
    if n == 0 then [] else MirrorTable(canvasWidth, bases, n - 1) + [Mirrored(canvasWidth, bases[n - 1].containers)]
  }

  lemma {:induction false} MirrorTableAt(canvasWidth: int, bases: seq<Layout>, n: nat, i: nat)
    requires BasesMirrorable(bases) && i < n <= |bases|
    ensures MirrorTable(canvasWidth, bases, n)[i] == Mirrored(canvasWidth, bases[i].containers)
    decreases n
  {
    if i < n - 1 {
      MirrorTableAt(canvasWidth, bases, n - 1, i);
    }
  }

  /** The shuffles of the first `n` bases, where produced. */
  function ShuffleTable(bases: seq<Layout>, perms: seq<seq<seq<nat>>>, n: nat): (r: seq<Option<seq<Box>>>)
    requires ShufflesFor(bases, perms) && n <= |bases|
    ensures |r| == n
  {
    if n == 0 then [] else ShuffleTable(bases, perms, n - 1) + [ShuffleSpec(bases[n - 1].containers, perms[n - 1])]
  }

  lemma {:induction false} ShuffleTableAt(bases: seq<Layout>, perms: seq<seq<seq<nat>>>, n: nat, i: nat)
    requires ShufflesFor(bases, perms) && i < n <= |bases|
    ensures ShuffleTable(bases, perms, n)[i] == ShuffleSpec(bases[i].containers, perms[i])
    decreases n
  {
    if i < n - 1 {
      ShuffleTableAt(bases, perms, n - 1, i);
    }
  }

  /** The mixes of base `a` (left) with each of the first `n` bases (right). */
  function MixesWith(canvasWidth: int, bases: seq<Layout>, a: nat, n: nat): (r: seq<Option<seq<Box>>>)
    requires Remixable(bases) && a < |bases| && n <= |bases|
    ensures |r| == n
  {
    if n == 0 then []
    else MixesWith(canvasWidth, bases, a, n - 1) + [MixSpec(canvasWidth, bases[a].containers, bases[n - 1].containers)]
  }

  /** The rows of mixes for the first `m` left bases. */
  function MixRows(canvasWidth: int, bases: seq<Layout>, m: nat): (r: seq<seq<Option<seq<Box>>>>)
    requires Remixable(bases) && m <= |bases|
    ensures |r| == m && forall a :: 0 <= a < m ==> |r[a]| == |bases|
  {
    if m == 0 then [] else MixRows(canvasWidth, bases, m - 1) + [MixesWith(canvasWidth, bases, m - 1, |bases|)]
  }

  /** The mix of base `a` (left) with base `j` (right), for every pair. */
  function MixTable(canvasWidth: int, bases: seq<Layout>): (r: seq<seq<Option<seq<Box>>>>)
    requires Remixable(bases)
    ensures |r| == |bases| && forall a :: 0 <= a < |bases| ==> |r[a]| == |bases|
  {
    MixRows(canvasWidth, bases, |bases|)
  }

  lemma {:induction false} MixesWithAt(canvasWidth: int, bases: seq<Layout>, a: nat, n: nat, j: nat)
    requires Remixable(bases) && a < |bases| && j < n <= |bases|
    ensures MixesWith(canvasWidth, bases, a, n)[j] == MixSpec(canvasWidth, bases[a].containers, bases[j].containers)
    decreases n
  {
    if j < n - 1 {
      MixesWithAt(canvasWidth, bases, a, n - 1, j);
    }
  }

  lemma {:induction false} MixRowsAt(canvasWidth: int, bases: seq<Layout>, m: nat, a: nat)
    requires Remixable(bases) && a < m <= |bases|
    ensures MixRows(canvasWidth, bases, m)[a] == MixesWith(canvasWidth, bases, a, |bases|)
    decreases m
  {
    if a < m - 1 {
      MixRowsAt(canvasWidth, bases, m - 1, a);
    }
  }

  lemma {:induction false} MixTableAt(canvasWidth: int, bases: seq<Layout>, a: nat, j: nat)
    requires Remixable(bases) && a < |bases| && j < |bases|
    ensures MixTable(canvasWidth, bases)[a][j] == MixSpec(canvasWidth, bases[a].containers, bases[j].containers)
  {
    MixRowsAt(canvasWidth, bases, |bases|, a);
    MixesWithAt(canvasWidth, bases, a, |bases|, j);
  }

  /** What the first loop of `generate_remixes` has saved after `n` bases. */
  function BasesSaved(canvasWidth: int, bases: seq<Layout>, perms: seq<seq<seq<nat>>>, n: nat): seq<Saved>
    requires BasesMirrorable(bases) && ShufflesFor(bases, perms) && n <= |bases|
  {
    PerBase(Names(bases), MirrorTable(canvasWidth, bases, |bases|), ShuffleTable(bases, perms, |bases|), n)
  }

  /** Base `i` adds its mirror, then its shuffle when there is one. */
  lemma BasesSavedStep(canvasWidth: int, bases: seq<Layout>, perms: seq<seq<seq<nat>>>, i: nat)
    requires BasesMirrorable(bases) && ShufflesFor(bases, perms) && i < |bases|
    ensures BasesSaved(canvasWidth, bases, perms, i + 1)
         == BasesSaved(canvasWidth, bases, perms, i)
            + ([MirrorSaved(Names(bases)[i], MirrorTable(canvasWidth, bases, |bases|)[i])]
               + ShuffleSaved(Names(bases)[i], ShuffleTable(bases, perms, |bases|)[i]))
  {
    var prev := BasesSaved(canvasWidth, bases, perms, i);
    var m := [MirrorSaved(Names(bases)[i], MirrorTable(canvasWidth, bases, |bases|)[i])];
    var sh := ShuffleSaved(Names(bases)[i], ShuffleTable(bases, perms, |bases|)[i]);
    assert BasesSaved(canvasWidth, bases, perms, i + 1) == prev + m + sh;
    AppendAssoc(prev, m, sh);
  }

  /** What the inner mixing loop has saved for left base `a` after `n`
      right bases. */
  function RowSaved(canvasWidth: int, bases: seq<Layout>, a: nat, n: nat): seq<Saved>
    requires Remixable(bases) && a < |bases| && n <= |bases|
  {
    MixRow(Names(bases), MixTable(canvasWidth, bases), a, n)
  }

  /** What the mixing loops have saved after `m` left bases. */
  function MixesSaved(canvasWidth: int, bases: seq<Layout>, m: nat): seq<Saved>
    requires Remixable(bases) && m <= |bases|
  {
    MixAll(Names(bases), MixTable(canvasWidth, bases), m)
  }

  /** Everything `generate_remixes` saves, in the order it saves it. */
  function Remixes(canvasWidth: int, bases: seq<Layout>, perms: seq<seq<seq<nat>>>): seq<Saved>
    requires Remixable(bases) && ShufflesFor(bases, perms)
  {
    Assemble(Names(bases), MirrorTable(canvasWidth, bases, |bases|), ShuffleTable(bases, perms, |bases|), MixTable(canvasWidth, bases))
  }

  /** A shuffle reaches `_save_template` exactly when one is produced. */
  lemma {:induction false} ShuffleProduced(bases: seq<Layout>, perms: seq<seq<seq<nat>>>, i: nat)
    requires ShufflesFor(bases, perms) && i < |bases|
    ensures Produced(ShuffleTable(bases, perms, |bases|)[i]) <==> ShuffleSpec(bases[i].containers, perms[i]).Some?
  {
    ShuffleTableAt(bases, perms, |bases|, i);
    if ShuffleSpec(bases[i].containers, perms[i]).Some? {
      ShuffleNonEmpty(bases[i].containers, perms[i]);
    }
  }

  /** A mix reaches `_save_template` exactly when one is produced. */
  lemma {:induction false} MixProduced(canvasWidth: int, bases: seq<Layout>, a: nat, j: nat)
    requires Remixable(bases) && a < |bases| && j < |bases|
    ensures Produced(MixTable(canvasWidth, bases)[a][j]) <==>
      MixSpec(canvasWidth, bases[a].containers, bases[j].containers).Some?
  {
    assert AllResolvable(bases[a].containers) && AllResolvable(bases[j].containers);
    MixTableAt(canvasWidth, bases, a, j);
    if MixSpec(canvasWidth, bases[a].containers, bases[j].containers).Some? {
      MixNonEmpty(canvasWidth, bases[a].containers, bases[j].containers);
    }
  }

  /** `generate_remixes` saves at least one template per base (its mirror) and
      at most `n (n + 1)` for `n` bases. */
  lemma {:induction false} RemixBounds(canvasWidth: int, bases: seq<Layout>, perms: seq<seq<seq<nat>>>)
    requires Remixable(bases) && ShufflesFor(bases, perms)
    ensures |bases| <= |Remixes(canvasWidth, bases, perms)| <= |bases| * (|bases| + 1)
  {
    AssembleBounds(Names(bases), MirrorTable(canvasWidth, bases, |bases|), ShuffleTable(bases, perms, |bases|), MixTable(canvasWidth, bases));
  }

  /** Every base's mirror is saved under `Remix_Mirror_<name>`, and every
      shuffle that is produced under `Remix_Shuffle_<name>`. */
  lemma {:induction false} RemixPerBase(canvasWidth: int, bases: seq<Layout>, perms: seq<seq<seq<nat>>>, i: nat)
    requires Remixable(bases) && ShufflesFor(bases, perms) && i < |bases|
    ensures Saved(MirrorName(bases[i].name), Mirrored(canvasWidth, bases[i].containers),
                  "Mirrored version of " + bases[i].name) in Remixes(canvasWidth, bases, perms)
    ensures ShuffleSpec(bases[i].containers, perms[i]).Some? ==>
      Saved(ShuffleName(bases[i].name), ShuffleSpec(bases[i].containers, perms[i]).value,
            "Shuffled role positions of " + bases[i].name) in Remixes(canvasWidth, bases, perms)
  {
    var names, mirrors, shuffles, mixes :=
      Names(bases), MirrorTable(canvasWidth, bases, |bases|), ShuffleTable(bases, perms, |bases|), MixTable(canvasWidth, bases);
    var n := |bases|;
    PerBaseMembers(names, mirrors, shuffles, n, i);
    MirrorTableAt(canvasWidth, bases, |bases|, i);
    ShuffleTableAt(bases, perms, |bases|, i);
    ShuffleProduced(bases, perms, i);
    var per := PerBase(names, mirrors, shuffles, n);
    assert Remixes(canvasWidth, bases, perms) == per + MixAll(names, mixes, n);
    if Produced(shuffles[i]) {
      assert ShuffleSaved(names[i], shuffles[i])[0] in per;
    }
  }

  /** The template saved for the mix of bases `a` and `j`. */
  predicate MixOf(canvasWidth: int, bases: seq<Layout>, a: nat, j: nat, e: Saved)
    requires Remixable(bases) && a < |bases| && j < |bases|
  {
    bases[a].name != bases[j].name
    && MixSpec(canvasWidth, bases[a].containers, bases[j].containers).Some?
    && e == Saved(MixName(bases[a].name, bases[j].name),
                  MixSpec(canvasWidth, bases[a].containers, bases[j].containers).value,
                  "Hybrid of " + bases[a].name + " (Left) and " + bases[j].name + " (Right)")
  }

  /** The saved mix of a pair, in terms of the tables. */
  lemma {:induction false} MixOfSaved(canvasWidth: int, bases: seq<Layout>, a: nat, j: nat, e: Saved)
    requires Remixable(bases) && a < |bases| && j < |bases|
    ensures e in MixSaved(Names(bases)[a], Names(bases)[j], MixTable(canvasWidth, bases)[a][j])
            <==> MixOf(canvasWidth, bases, a, j, e)
  {
    MixProduced(canvasWidth, bases, a, j);
    MixTableAt(canvasWidth, bases, a, j);
  }

  /** The mixing loops save a template exactly for each ordered pair of bases
      with different names whose mix is produced, under the shortened name. */
  lemma {:induction false} RemixMixes(canvasWidth: int, bases: seq<Layout>, e: Saved)
    requires Remixable(bases)
    ensures e in MixAll(Names(bases), MixTable(canvasWidth, bases), |bases|) <==>
      exists a, j :: 0 <= a < |bases| && 0 <= j < |bases| && MixOf(canvasWidth, bases, a, j, e)
  {
    var names, mixes := Names(bases), MixTable(canvasWidth, bases);
    MixAllMembers(names, mixes, |bases|, e);
    if e in MixAll(names, mixes, |bases|) {
      var a, j :| 0 <= a < |bases| && 0 <= j < |bases| && e in MixSaved(names[a], names[j], mixes[a][j]);
      MixOfSaved(canvasWidth, bases, a, j, e);
    }
    if exists a, j :: 0 <= a < |bases| && 0 <= j < |bases| && MixOf(canvasWidth, bases, a, j, e) {
      var a, j :| 0 <= a < |bases| && 0 <= j < |bases| && MixOf(canvasWidth, bases, a, j, e);
      MixOfSaved(canvasWidth, bases, a, j, e);
    }
  }

  class LayoutDesigner {
    const canvasWidth: int
    const canvasHeight: int
    /** The presets `_load_layouts` found, in dictionary order. */
    const baseLayouts: seq<Layout>

    /** `__init__` with `_load_config`: the canvas size from the configuration's
        `canvas` section where it gives one, else 4961 x 3508; the presets are
        passed in. */
    constructor(configWidth: Option<int>, configHeight: Option<int>, layouts: seq<Layout>)
      ensures canvasWidth == configWidth.GetOr(4961) && canvasHeight == configHeight.GetOr(3508)
      ensures baseLayouts == layouts
    {
      canvasWidth := configWidth.GetOr(4961);
      canvasHeight := configHeight.GetOr(3508);
      baseLayouts := layouts;
    }

    /** `_create_mirror_variant`: a copy of the list with every box mirrored. */
    method MirrorVariant(cs: seq<Box>) returns (r: seq<Box>)
      requires forall i :: 0 <= i < |cs| ==> Mirrorable(cs[i])
      ensures r == Mirrored(canvasWidth, cs)
    {
      r := cs;
      var i := 0;
      while i < |r|
        invariant 0 <= i <= |r| == |cs|
        invariant forall k :: 0 <= k < i ==> r[k] == MirrorBox(canvasWidth, cs[k])
        invariant forall k :: i <= k < |r| ==> r[k] == cs[k]
      {
        var c := r[i];
        var oldX := LeftOf(c).value;
        var w := WidthOf(c).value;
        var newX := canvasWidth - oldX - w;
        if c.canvasX.Some? {
          c := c.(canvasX := Some(newX));
        }
        if c.x.Some? {
          c := c.(x := Some(newX));
        }
        var rot := c.rotationDeg.GetOr(0);
        if rot != 0 {
          c := c.(rotationDeg := Some(-rot));
        }
        r := r[i := c];
        i := i + 1;
      }
    }

    /** `_check_collisions`: true as soon as one pair collides. */
    method CheckCollisions(ga: seq<Box>, gb: seq<Box>) returns (hit: bool)
      requires AllResolvable(ga) && AllResolvable(gb)
      ensures hit <==> AnyCollision(ga, gb)
    {
      var i := 0;
      while i < |ga|
        invariant 0 <= i <= |ga|
        invariant forall k, l :: 0 <= k < i && 0 <= l < |gb| ==> !Collide(ga[k], gb[l])
      {
        var a := ga[i];
        var ax, ay, aw, ah := LeftOf(a).value, TopOf(a).value, WidthOf(a).value, HeightOf(a).value;
        var j := 0;
        while j < |gb|
          invariant 0 <= j <= |gb|
          invariant forall l :: 0 <= l < j ==> !Collide(a, gb[l])
        {
          var b := gb[j];
          var bx, by0, bw, bh := LeftOf(b).value, TopOf(b).value, WidthOf(b).value, HeightOf(b).value;
          if ax < bx + bw + CollisionMargin && ax + aw + CollisionMargin > bx
             && ay < by0 + bh + CollisionMargin && ay + ah + CollisionMargin > by0
          {
            assert Collide(ga[i], gb[j]);
            return true;
          }
          j := j + 1;
        }
        i := i + 1;
      }
      return false;
    }

    /** The left-half filter of `_create_mix_variant`: the boxes whose centre
        lies left of the canvas centre line, in order. */
    method KeepLeft(a: seq<Box>) returns (left: seq<Box>)
      requires AllResolvable(a)
      ensures left == LeftHalf(canvasWidth, a)
    {
      var centerX := canvasWidth as real / 2.0;
      left := [];
      for i := 0 to |a|
        invariant left == LeftHalf(canvasWidth, a[..i])
      {
        var c := a[i];
        var cx := LeftOf(c).value as real + WidthOf(c).value as real / 2.0;
        assert a[..i + 1][..i] == a[..i];
        if cx < centerX {
          left := left + [c];
        }
      }
      assert a[..|a|] == a;
    }

    /** The right-half filter: the boxes whose centre lies on or right of the
        centre line, in order. */
    method KeepRight(b: seq<Box>) returns (right: seq<Box>)
      requires AllResolvable(b)
      ensures right == RightHalf(canvasWidth, b)
    {
      var centerX := canvasWidth as real / 2.0;
      right := [];
      for i := 0 to |b|
        invariant right == RightHalf(canvasWidth, b[..i])
      {
        var c := b[i];
        var cx := LeftOf(c).value as real + WidthOf(c).value as real / 2.0;
        assert b[..i + 1][..i] == b[..i];
        if cx >= centerX {
          right := right + [c];
        }
      }
      assert b[..|b|] == b;
    }

    /** `_create_mix_variant`; the centre test is the source's float one,
        `x + w / 2 < canvas_width / 2`. */
    method MixVariant(a: seq<Box>, b: seq<Box>) returns (r: Option<seq<Box>>)
      requires AllResolvable(a) && AllResolvable(b)
      ensures r == MixSpec(canvasWidth, a, b)
    {
      var left := KeepLeft(a);
      var right := KeepRight(b);
      var collides := CheckCollisions(left, right);
      if collides {
        return None;
      }
      if |left| + |right| < MinMixBoxes {
        return None;
      }
      if |left| == 0 || |right| == 0 {
        return None;
      }
      return Some(left + right);
    }

    /** `_create_shuffle_variant`, with `perms[g]` the reordering that
        `random.shuffle` applies to group `g`. */
    method ShuffleVariant(cs: seq<Box>, perms: seq<seq<nat>>) returns (r: Option<seq<Box>>)
      requires ValidPerms(GroupsOf(cs, |cs|), perms)
      ensures r == ShuffleSpec(cs, perms)
      ensures r.None? <==> !Swappable(GroupsOf(cs, |cs|))
    {
      var out := cs;
      var gs := GroupByRole(cs);
      GroupsWellFormed(cs);
      var swapped := false;
      for t := 0 to |gs|
        invariant out == ShuffleUpTo(cs, gs, perms, t)
        invariant swapped <==> SwappableBelow(gs, t)
      {
        var ms := gs[t].members;
        assert ShuffleUpTo(cs, gs, perms, t + 1)
          == if |ms| > 1 then ShuffleGroup(out, ms, perms[t]) else out;
        if |ms| > 1 {
          out := ShuffleRole(out, ms, perms[t]);
          swapped := true;
        }
      }
      assert SwappableBelow(gs, |gs|) == Swappable(gs);
      if swapped {
        return Some(out);
      }
      return None;
    }

    /** `generate_remixes`: the templates saved, in order, and the count it
        reports. `perms[i]` holds the shuffle outcomes for base `i`. */
    method GenerateRemixes(perms: seq<seq<seq<nat>>>) returns (saved: seq<Saved>, count: nat)
      requires Remixable(baseLayouts) && ShufflesFor(baseLayouts, perms)
      ensures saved == Remixes(canvasWidth, baseLayouts, perms)
      ensures count == |saved|
    {
      saved, count := SaveBaseRemixes(perms);
      var mixes, mixCount := SaveMixes();
      saved := saved + mixes;
      count := count + mixCount;
    }

    /** Strategy 3 of `generate_remixes`: every base on the left, in order. */
    method SaveMixes() returns (mixes: seq<Saved>, count: nat)
      requires Remixable(baseLayouts)
      ensures mixes == MixesSaved(canvasWidth, baseLayouts, |baseLayouts|)
      ensures count == |mixes|
    {
      var bases := baseLayouts;
      mixes := [];
      count := 0;
      var ia := 0;
      while ia < |bases|
        invariant 0 <= ia <= |bases|
        invariant mixes == MixesSaved(canvasWidth, bases, ia) && count == |mixes|
      {
        var row, rowCount := SaveMixRow(ia);
        mixes := mixes + row;
        count := count + rowCount;
        ia := ia + 1;
      }
    }

    /** Strategies 1 and 2 of `generate_remixes`: for each base in order, its
        mirror, then its shuffle when one is produced. */
    method SaveBaseRemixes(perms: seq<seq<seq<nat>>>) returns (saved: seq<Saved>, count: nat)
      requires BasesMirrorable(baseLayouts) && ShufflesFor(baseLayouts, perms)
      ensures saved == BasesSaved(canvasWidth, baseLayouts, perms, |baseLayouts|)
      ensures count == |saved|
    {
      saved := [];
      count := 0;
      for i := 0 to |baseLayouts|
        invariant saved == BasesSaved(canvasWidth, baseLayouts, perms, i)
        invariant count == |saved|
      {
        var piece, n := SaveBase(perms, i);
        BasesSavedStep(canvasWidth, baseLayouts, perms, i);
        saved := saved + piece;
        count := count + n;
      }
    }

    /** One round of the first loop: the mirror of base `i`, then its shuffle
        when one is produced. */
    method SaveBase(perms: seq<seq<seq<nat>>>, i: nat) returns (piece: seq<Saved>, count: nat)
      requires BasesMirrorable(baseLayouts) && ShufflesFor(baseLayouts, perms) && i < |baseLayouts|
      ensures piece == [MirrorSaved(Names(baseLayouts)[i], MirrorTable(canvasWidth, baseLayouts, |baseLayouts|)[i])]
                       + ShuffleSaved(Names(baseLayouts)[i], ShuffleTable(baseLayouts, perms, |baseLayouts|)[i])
      ensures count == |piece|
    {
      var preset := baseLayouts[i];
      var mirrored := MirrorVariant(preset.containers);
      MirrorTableAt(canvasWidth, baseLayouts, |baseLayouts|, i);
      piece := [Saved(MirrorName(preset.name), mirrored, "Mirrored version of " + preset.name)];
      count := 1;
      var shuffled := ShuffleVariant(preset.containers, perms[i]);
      ShuffleTableAt(baseLayouts, perms, |baseLayouts|, i);
      if shuffled.Some? && shuffled.value != [] {
        piece := piece + [Saved(ShuffleName(preset.name), shuffled.value, "Shuffled role positions of " + preset.name)];
        count := count + 1;
      }
    }

    /** Strategy 3 for one left base `ia`: a mix with every base of another
        name, in order, when the mix is produced. */
    method SaveMixRow(ia: nat) returns (row: seq<Saved>, count: nat)
      requires ia < |baseLayouts| && Remixable(baseLayouts)
      ensures row == RowSaved(canvasWidth, baseLayouts, ia, |baseLayouts|)
      ensures count == |row|
    {
      ghost var names, mixes := Names(baseLayouts), MixTable(canvasWidth, baseLayouts);
      row := [];
      count := 0;
      var ib: nat := 0;
      while ib < |baseLayouts|
        invariant ib <= |names| && row == MixRow(names, mixes, ia, ib) && count == |row|
      {
        var piece, n := SaveMix(ia, ib);
        row := row + piece;
        count := count + n;
        ib := ib + 1;
      }
    }

    /** One round of the inner mixing loop: bases `ia` (left) and `ib`
        (right) are mixed when their names differ, and the mix is saved when
        it is produced. */
    method SaveMix(ia: nat, ib: nat) returns (piece: seq<Saved>, count: nat)
      requires ia < |baseLayouts| && ib < |baseLayouts| && Remixable(baseLayouts)
      ensures piece == MixSaved(Names(baseLayouts)[ia], Names(baseLayouts)[ib], MixTable(canvasWidth, baseLayouts)[ia][ib])
      ensures count == |piece|
    {
      var nameA, nameB := baseLayouts[ia].name, baseLayouts[ib].name;
      piece := [];
      count := 0;
      if nameA != nameB {
        assert AllResolvable(baseLayouts[ia].containers) && AllResolvable(baseLayouts[ib].containers);
        var mixed := MixVariant(baseLayouts[ia].containers, baseLayouts[ib].containers);
        MixTableAt(canvasWidth, baseLayouts, ia, ib);
        if mixed.Some? && mixed.value != [] {
          piece := [Saved(MixName(nameA, nameB), mixed.value,
                          "Hybrid of " + nameA + " (Left) and " + nameB + " (Right)")];
          count := 1;
        }
      }
    }
  }

  /** The grouping loop of `_create_shuffle_variant`. */
  method GroupByRole(cs: seq<Box>) returns (gs: seq<Group>)
    ensures gs == GroupsOf(cs, |cs|)
  {
    gs := [];
    var i := 0;
    while i < |cs|
      invariant 0 <= i <= |cs| && gs == GroupsOf(cs, i)
    {
      var role := RoleOf(cs[i]);
      var k := FindRole(gs, role);
      ghost var before := gs;
      if k == |gs| {
        gs := gs + [Group(role, [])];
        assert gs[k].members + [i] == [i];
      }
      gs := gs[k := gs[k].(members := gs[k].members + [i])];
      assert gs == AddMember(before, role, i);
      i := i + 1;
    }
  }

  /** One round of the group loop of `_create_shuffle_variant`: collect the
      spatial records of the group, reorder them and write them back. */
  method ShuffleRole(cs: seq<Box>, ms: seq<nat>, perm: seq<nat>) returns (r: seq<Box>)
    requires InRange(ms, |cs|) && IsPerm(perm, |ms|)
    ensures r == ShuffleGroup(cs, ms, perm)
  {
    var props := CollectProps(cs, ms);
    props := Permute(props, perm);
    r := WriteProps(cs, ms, props);
  }

  /** The `props` loop: one record per member, in member order. */
  method CollectProps(cs: seq<Box>, ms: seq<nat>) returns (props: seq<Spatial>)
    requires InRange(ms, |cs|)
    ensures props == Props(cs, ms)
  {
    props := [];
    var k := 0;
    while k < |ms|
      invariant 0 <= k <= |ms| && |props| == k
      invariant forall l :: 0 <= l < k ==> props[l] == SpatialOf(cs[ms[l]])
    {
      var c := cs[ms[k]];
      var p := Spatial(LeftOf(c), TopOf(c), WidthOf(c), HeightOf(c), c.rotationDeg.GetOr(0));
      props := props + [p];
      k := k + 1;
    }
  }

  /** The apply-back loop: member `k` takes record `props[k]`. */
  method WriteProps(cs: seq<Box>, ms: seq<nat>, props: seq<Spatial>) returns (r: seq<Box>)
    requires InRange(ms, |cs|) && |props| == |ms|
    ensures r == WriteBack(cs, ms, props, |ms|)
  {
    r := cs;
    var k := 0;
    while k < |ms|
      invariant 0 <= k <= |ms| && r == WriteBack(cs, ms, props, k)
    {
      var idx := ms[k];
      var c := r[idx];
      var p := props[k];
      if c.canvasX.Some? { c := c.(canvasX := p.x); }
      if c.x.Some? { c := c.(x := p.x); }
      if c.canvasY.Some? { c := c.(canvasY := p.y); }
      if c.y.Some? { c := c.(y := p.y); }
      if c.widthPx.Some? { c := c.(widthPx := p.w); }
      if c.w.Some? { c := c.(w := p.w); }
      if c.heightPx.Some? { c := c.(heightPx := p.h); }
      if c.h.Some? { c := c.(h := p.h); }
      if c.rotationDeg.Some? { c := c.(rotationDeg := Some(p.rot)); }
      assert c == Apply(r[idx], p);
      r := r[idx := c];
      k := k + 1;
    }
  }
}
