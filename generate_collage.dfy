/** The anchored-layout storyboard generator (generate_collage.py): colour
    parsing, the aspect rules that refine the image classifier's label, the
    filename-based product discovery, the resolution of a container's
    configuration into pixel bounds, and the matching of product files to
    containers.

    The classifier itself, the folder listing and file existence are inputs;
    the drawing is left out. */
module GenerateCollage {
  import opened Common
  import SmartClassify
  import PvilAnalyzer
  import ImageUtils

  // ---------------------------------------------------------------------
  // hex_to_rgb
  // ---------------------------------------------------------------------

  predicate IsHexDigit(c: char) {
    '0' <= c <= '9' || 'a' <= c <= 'f' || 'A' <= c <= 'F'
  }

  function HexValue(c: char): (v: nat)
    requires IsHexDigit(c)
    ensures v < 16
  {
    if '0' <= c <= '9' then c as int - '0' as int
    else if 'a' <= c <= 'f' then c as int - 'a' as int + 10
    else c as int - 'A' as int + 10
  }

  /** The ASCII characters that Python's `int()` skips around a number. */
  predicate IsSpace(c: char) {
    9 <= c as int <= 13 || 28 <= c as int <= 32
  }

  /** `s.lstrip(c)`: what is left once the leading `c`s are removed. */
  function DropLeading(s: string, c: char): (r: string)
    ensures |r| <= |s|
    ensures r == [] || r[0] != c
    decreases |s|
  {
    if s != [] && s[0] == c then DropLeading(s[1..], c) else s
  }

  /** What `lstrip` leaves is a suffix of the text, and everything it
      removed is `c`. */
  lemma {:induction false} DropLeadingSuffix(s: string, c: char)
    ensures var r := DropLeading(s, c);
      r == s[|s| - |r|..] && forall i :: 0 <= i < |s| - |r| ==> s[i] == c
    decreases |s|
  {
    if s != [] && s[0] == c {
      DropLeadingSuffix(s[1..], c);
    }
  }

  /** The whitespace-stripped text that `int()` parses; it keeps only
      characters of `s`. */
  function TrimSpace(s: string): (r: string)
    ensures |r| <= |s|
    ensures forall c :: c in r ==> c in s
    ensures r == [] || (!IsSpace(r[0]) && !IsSpace(r[|r| - 1]))
    decreases |s|
  {
    if s != [] && IsSpace(s[0]) then TrimSpace(s[1..])
    else if s != [] && IsSpace(s[|s| - 1]) then TrimSpace(s[..|s| - 1])
    else s
  }

  predicate AllHex(d: string) {
    forall i :: 0 <= i < |d| ==> IsHexDigit(d[i])
  }

  /** The value of a string of hexadecimal digits. */
  function HexNumber(d: string): nat
    requires AllHex(d)
    decreases |d|
  {
    if d == [] then 0 else 16 * HexNumber(d[..|d| - 1]) + HexValue(d[|d| - 1])
  }

  /** `int(t, 16)` for the texts of at most two characters that `hex_to_rgb`
      hands it: surrounding whitespace, then an optional sign, then at least
      one hexadecimal digit; anything else raises `ValueError` (`None`). */
  function ParseHex(t: string): Option<int> {
    var u := TrimSpace(t);
    var signed := u != [] && (u[0] == '+' || u[0] == '-');
    var digits := if signed then u[1..] else u;
    if digits != [] && AllHex(digits) then
      var v: int := HexNumber(digits);
      Some(if signed && u[0] == '-' then -v else v)
    else None
  }

  /** `s[i:i+2]`, which Python clips to the end of the string. */
  function Pair(s: string, i: nat): string {
    if i >= |s| then [] else if i + 2 >= |s| then s[i..] else s[i..i + 2]
  }

  /** `hex_to_rgb`: the colour, or `None` when one of the three pairs does
      not parse. Characters after the sixth are ignored. */
  function HexToRgb(color: string): Option<(int, int, int)> {
    var s := DropLeading(color, '#');
    var r, g, b := ParseHex(Pair(s, 0)), ParseHex(Pair(s, 2)), ParseHex(Pair(s, 4));
    if r.Some? && g.Some? && b.Some? then Some((r.value, g.value, b.value)) else None
  }

  function HexDigitChar(d: nat): char
    requires d < 16
  {
    "0123456789abcdef"[d]
  }

  /** A channel written as two hexadecimal digits, as in `#4a90c8`. */
  function Hex2(n: nat): string
    requires n < 256
  {
    [HexDigitChar(n / 16), HexDigitChar(n % 16)]
  }

  function Hashes(k: nat): string {
    if k == 0 then [] else ['#'] + Hashes(k - 1)
  }

  lemma HexDigitRoundTrip(d: nat)
    requires d < 16
    ensures IsHexDigit(HexDigitChar(d)) && !IsSpace(HexDigitChar(d)) && HexDigitChar(d) != '#'
    ensures HexValue(HexDigitChar(d)) == d
  {
  }

  lemma {:induction false} DropHashes(k: nat, t: string)
    requires t == [] || t[0] != '#'
    ensures DropLeading(Hashes(k) + t, '#') == t
    decreases k
  {
    if k > 0 {
      DropHashes(k - 1, t);
      var rest := Hashes(k - 1) + t;
      assert Hashes(k) + t == ['#'] + rest;
      DropLeadingCons(rest, '#');
    } else {
      assert Hashes(k) + t == t;
    }
  }

  lemma DropLeadingCons(rest: string, c: char)
    ensures DropLeading([c] + rest, c) == DropLeading(rest, c)
  {
    assert ([c] + rest)[1..] == rest;
  }

  lemma ParseHex2(n: nat)
    requires n < 256
    ensures ParseHex(Hex2(n)) == Some(n)
  {
    var s := Hex2(n);
    HexDigitRoundTrip(n / 16);
    HexDigitRoundTrip(n % 16);
    assert TrimSpace(s) == s;
    assert s[..1] == [HexDigitChar(n / 16)];
    assert HexNumber(s[..1]) == n / 16 by {
      assert s[..1][..0] == [];
    }
  }

  /** Any number of leading `#`s, then three two-digit channels: the colour
      comes back whatever follows it. */
  lemma HexToRgbRoundTrip(k: nat, r: nat, g: nat, b: nat, rest: string)
    requires r < 256 && g < 256 && b < 256
    ensures HexToRgb(Hashes(k) + (Hex2(r) + Hex2(g) + Hex2(b) + rest)) == Some((r, g, b))
  {
    var t := Hex2(r) + Hex2(g) + Hex2(b) + rest;
    var color := Hashes(k) + t;
    HexDigitRoundTrip(r / 16);
    DropHashes(k, t);
    PairsOf(Hex2(r), Hex2(g), Hex2(b), rest);
    ParseHex2(r);
    ParseHex2(g);
    ParseHex2(b);
    HexToRgbOf(color, t, Hex2(r), Hex2(g), Hex2(b));
  }

  lemma HexToRgbOf(color: string, t: string, x: string, y: string, z: string)
    requires DropLeading(color, '#') == t && Pair(t, 0) == x && Pair(t, 2) == y && Pair(t, 4) == z
    requires ParseHex(x).Some? && ParseHex(y).Some? && ParseHex(z).Some?
    ensures HexToRgb(color) == Some((ParseHex(x).value, ParseHex(y).value, ParseHex(z).value))
  {
  }

  lemma PairsOf(x: string, y: string, z: string, rest: string)
    requires |x| == 2 && |y| == 2 && |z| == 2
    ensures Pair(x + y + z + rest, 0) == x && Pair(x + y + z + rest, 2) == y && Pair(x + y + z + rest, 4) == z
  {
    var t := x + y + z + rest;
    assert t[0..2] == x;
    assert t[2..4] == y;
    assert t[4..6] == z;
  }

  lemma {:induction false} HexNumberBound(d: string)
    requires AllHex(d) && |d| <= 2
    ensures HexNumber(d) < if |d| == 2 then 256 else 16
    decreases |d|
  {
    if |d| == 2 {
      assert AllHex(d[..1]);
      HexNumberBound(d[..1]);
      assert HexNumber(d) == 16 * HexNumber(d[..1]) + HexValue(d[1]);
    } else if |d| == 1 {
      assert d[..0] == [];
    }
  }

  lemma SliceMembers(s: string, i: nat, j: nat)
    requires i <= j <= |s|
    ensures forall c :: c in s[i..j] ==> c in s
  {
  }

  lemma PairMembers(s: string, i: nat)
    ensures forall c :: c in Pair(s, i) ==> c in s
  {
    if i < |s| {
      SliceMembers(s, i, if i + 2 >= |s| then |s| else i + 2);
    }
  }

  lemma ParseHexRange(t: string)
    requires |t| <= 2
    ensures ParseHex(t).Some? ==> -15 <= ParseHex(t).value <= 255
    ensures ParseHex(t).Some? && '-' !in t ==> 0 <= ParseHex(t).value
  {
    var u := TrimSpace(t);
    if u != [] && (u[0] == '+' || u[0] == '-') && AllHex(u[1..]) {
      HexNumberBound(u[1..]);
      assert u[0] in u;
    } else if u != [] && AllHex(u) {
      HexNumberBound(u);
    }
  }

  /** Each channel is at most 255; it can be negative only when the text
      holds a minus sign (`int("-f", 16)` is -15), and a colour shorter than
      five digits after the `#`s is refused. */
  lemma HexToRgbRange(color: string)
    ensures HexToRgb(color).Some? ==>
      var (r, g, b) := HexToRgb(color).value;
      -15 <= r <= 255 && -15 <= g <= 255 && -15 <= b <= 255
      && ('-' !in color ==> 0 <= r && 0 <= g && 0 <= b)
    ensures |DropLeading(color, '#')| <= 4 ==> HexToRgb(color) == None
  {
    var s := DropLeading(color, '#');
    DropLeadingSuffix(color, '#');
    SliceMembers(color, |color| - |s|, |color|);
    PairMembers(s, 0);
    PairMembers(s, 2);
    PairMembers(s, 4);
    ParseHexRange(Pair(s, 0));
    ParseHexRange(Pair(s, 2));
    ParseHexRange(Pair(s, 4));
  }

  /** A three-digit CSS colour is not understood. */
  lemma ShortHexRejected()
    ensures HexToRgb("#fff") == None
  {
    HexToRgbRange("#fff");
    assert DropLeading("#fff", '#') == "fff";
  }

  // ---------------------------------------------------------------------
  // get_smart_role: the aspect rules after the classifier's label
  // ---------------------------------------------------------------------

  /** The role of an ambiguous flat item by its width over height. */
  function AmbiguousRole(aspect: real): Option<string> {
    if aspect < 0.8 then Some("hero_left")
    else if 0.95 <= aspect <= 1.05 then Some("accessory_small")
    else if 0.8 <= aspect < 0.95 then Some("support_medium_large")
    else if aspect > 1.1 then Some("support_large")
    else None
  }

  function DistinctRole(name: string): Option<string> {
    if name == "tote bag" then Some("hero_right")
    else if name == "mug" then Some("cluster_bottom")
    else if name == "keyring" then Some("accessory_tiny")
    else if name == "notebook" then Some("support_medium")
    else None
  }

  /** `get_smart_role` once the classifier has chosen `Labels[aiLabel]`:
      `image` is the opened image's size, `None` when opening failed. Every
      failure, a zero height included, is caught and gives no role. */
  function SmartRole(aiLabel: SmartClassify.LabelIndex, image: Option<(nat, nat)>): Option<string> {
    if image.None? || image.value.1 == 0 then None
    else
      var name := SmartClassify.Labels[aiLabel];
      var aspect := image.value.0 as real / image.value.1 as real;
      var role := if name in SmartClassify.AmbiguousLabels then AmbiguousRole(aspect) else None;
      if role.None? then DistinctRole(name) else role
  }

  /** The aspect bands of an ambiguous label in whole-number terms: below
      4:5 a tall hero, from 19:20 to 21:20 a small accessory, between them a
      card, above 11:10 a landscape frame, and nothing in the gap between
      21:20 and 11:10. */
  lemma AmbiguousBands(i: SmartClassify.LabelIndex, w: Pos, h: Pos)
    requires SmartClassify.Labels[i] in SmartClassify.AmbiguousLabels
    ensures var r := SmartRole(i, Some((w, h)));
      (r == Some("hero_left") <==> 5 * w < 4 * h)
      && (r == Some("support_medium_large") <==> 4 * h <= 5 * w && 20 * w < 19 * h)
      && (r == Some("accessory_small") <==> 19 * h <= 20 * w <= 21 * h)
      && (r == Some("support_large") <==> 10 * w > 11 * h)
      && (r == None <==> 21 * h < 20 * w && 10 * w <= 11 * h)
  {
    var a := w as real / h as real;
    ImageUtils.AspectCompare(4, 5, w, h);
    assert 4 as real / 5 as real == 0.8;
    ImageUtils.AspectCompare(19, 20, w, h);
    assert 19 as real / 20 as real == 0.95;
    ImageUtils.AspectCompare(w, h, 21, 20);
    assert 21 as real / 20 as real == 1.05;
    ImageUtils.AspectCompare(w, h, 11, 10);
    assert 11 as real / 10 as real == 1.1;
    assert SmartClassify.Labels[i] != "tote bag" && SmartClassify.Labels[i] != "mug"
        && SmartClassify.Labels[i] != "keyring" && SmartClassify.Labels[i] != "notebook";
  }

  /** The other four labels have a fixed role whatever the image's shape. */
  lemma DistinctLabelRoles(i: SmartClassify.LabelIndex, w: nat, h: nat)
    requires SmartClassify.Labels[i] !in SmartClassify.AmbiguousLabels
    requires h > 0
    ensures SmartRole(i, Some((w, h))) == DistinctRole(SmartClassify.Labels[i])
    ensures SmartRole(i, Some((w, h))).Some?
  {
  }

  // ---------------------------------------------------------------------
  // calculate_container_bounds
  // ---------------------------------------------------------------------

  /** A rectangle in canvas pixels. */
  datatype Bounds = Bounds(x: int, y: int, w: int, h: int)

  /** An entry of `size_classes`; absent keys are `None`. */
  datatype SizeClass = SizeClass(fixedWidthPx: Option<int>, fixedHeightPx: Option<int>,
                                 maxWidthPercent: Option<real>, maxHeightPercent: Option<real>)

  /** A container of the configuration; absent keys are `None`. */
  datatype ContainerConfig = ContainerConfig(
    id: string, role: Option<string>, sizeClass: Option<string>,
    canvasX: Option<int>, canvasY: Option<int>, widthPx: Option<int>, heightPx: Option<int>,
    position: Option<string>, anchorTo: Option<string>, anchorSide: Option<string>,
    offsetXPercent: Option<real>, offsetYPercent: Option<real>,
    marginTopPercent: Option<real>, marginBottomPercent: Option<real>,
    marginLeftPercent: Option<real>, marginRightPercent: Option<real>,
    maxWidthPercent: Option<real>, maxHeightPercent: Option<real>, fixedHeightPercent: Option<real>)

  /** The outcome: the bounds, `None` for an anchor not placed yet, or the
      `KeyError` of a size class with a fixed width and no fixed height. */
  datatype Outcome = Placed(bounds: Bounds) | AnchorNotPlaced | MissingFixedHeight

  /** `int(total * (pct / 100))`. */
  function Percent(total: int, pct: real): int {
    Trunc(total as real * (pct / 100.0))
  }

  /** The rule that places a container, in the order they are tried. */
  datatype Mode = Exact | Anchored | Absolute | Left | Right | BottomCenter | Centered

  function ModeOf(c: ContainerConfig): Mode {
    if c.canvasX.Some? && c.canvasY.Some? then Exact
    else if c.position == Some("float") && c.anchorTo.Some? && c.anchorTo.value != "" then Anchored
    else
      var position := c.position.GetOr("left");
      if position == "absolute" then Absolute
      else if position == "left" then Left
      else if position == "right" then Right
      else if position == "bottom_center" then BottomCenter
      else Centered
  }

  /** `size_classes.get(container.get("size_class", "medium"), {})`. */
  function SizeClassOf(c: ContainerConfig, classes: map<string, SizeClass>): SizeClass {
    var name := c.sizeClass.GetOr("medium");
    if name in classes then classes[name] else SizeClass(None, None, None, None)
  }

  function ExactBounds(c: ContainerConfig, content: Bounds, sc: SizeClass): Bounds
    requires c.canvasX.Some? && c.canvasY.Some?
  {
    var w := if c.widthPx.Some? then c.widthPx.value
             else if sc.fixedWidthPx.Some? then sc.fixedWidthPx.value
             else Percent(content.w, sc.maxWidthPercent.GetOr(35.0));
    var h := if c.heightPx.Some? then c.heightPx.value
             else if sc.fixedHeightPx.Some? then sc.fixedHeightPx.value
             else Percent(content.h, sc.maxHeightPercent.GetOr(30.0));
    Bounds(c.canvasX.value, c.canvasY.value, w, h)
  }

  /** The point of the anchor's rectangle named by `side`. */
  function AnchorY(side: string, a: Bounds): int {
    if Contains(side, "top") then a.y else if Contains(side, "bottom") then a.y + a.h else a.y + a.h / 2
  }

  function AnchorX(side: string, a: Bounds): int {
    if Contains(side, "left") then a.x else if Contains(side, "right") then a.x + a.w else a.x + a.w / 2
  }

  function AnchoredOutcome(c: ContainerConfig, content: Bounds, sc: SizeClass, placed: map<string, Bounds>): Outcome
    requires c.anchorTo.Some?
  {
    if c.anchorTo.value !in placed then AnchorNotPlaced
    else
      var a := placed[c.anchorTo.value];
      var side := c.anchorSide.GetOr("top_left");
      var x := AnchorX(side, a) + Percent(content.w, c.offsetXPercent.GetOr(0.0));
      var y := AnchorY(side, a) + Percent(content.h, c.offsetYPercent.GetOr(0.0));
      if sc.fixedWidthPx.Some? then
        if sc.fixedHeightPx.None? then MissingFixedHeight
        else Placed(Bounds(x, y, sc.fixedWidthPx.value, sc.fixedHeightPx.value))
      else
        var h := Percent(content.h, sc.maxHeightPercent.GetOr(30.0));
        Placed(Bounds(x, y, h, h))
  }

  function AbsoluteBounds(c: ContainerConfig, content: Bounds, sc: SizeClass): Bounds {
    var h := if sc.fixedHeightPx.Some? then sc.fixedHeightPx.value
             else Percent(content.h, sc.maxHeightPercent.GetOr(30.0));
    var y := if c.marginBottomPercent.Some?
             then content.y + content.h - h - Percent(content.h, c.marginBottomPercent.value)
             else content.y + Percent(content.h, c.marginTopPercent.GetOr(0.0));
    var w := if sc.fixedWidthPx.Some? then sc.fixedWidthPx.value
             else Percent(content.w, sc.maxWidthPercent.GetOr(35.0));
    var x := if c.marginRightPercent.Some?
             then content.x + content.w - w - Percent(content.w, c.marginRightPercent.value)
             else content.x + Percent(content.w, c.marginLeftPercent.GetOr(0.0));
    Bounds(x, y, w, h)
  }

  function PositionedBounds(mode: Mode, c: ContainerConfig, content: Bounds): Bounds {
    match mode
    case Left =>
      Bounds(content.x + Percent(content.w, c.marginLeftPercent.GetOr(0.0)),
             content.y + Percent(content.h, c.marginTopPercent.GetOr(0.0)),
             Percent(content.w, c.maxWidthPercent.GetOr(35.0)),
             Percent(content.h, c.maxHeightPercent.GetOr(80.0)))
    case Right =>
      var w := Percent(content.w, c.maxWidthPercent.GetOr(35.0));
      Bounds(content.x + content.w - w - Percent(content.w, c.marginRightPercent.GetOr(0.0)),
             content.y + Percent(content.h, c.marginTopPercent.GetOr(0.0)),
             w, Percent(content.h, c.maxHeightPercent.GetOr(80.0)))
    case BottomCenter =>
      var w := Percent(content.w, c.maxWidthPercent.GetOr(65.0));
      var h := Percent(content.h, c.fixedHeightPercent.GetOr(15.0));
      Bounds(content.x + (content.w - w) / 2,
             content.y + content.h - h - Percent(content.h, c.marginBottomPercent.GetOr(0.0)), w, h)
    case _ =>
      var w := Trunc(content.w as real * 0.3);
      var h := Trunc(content.h as real * 0.3);
      Bounds(content.x + (content.w - w) / 2, content.y + (content.h - h) / 2, w, h)
  }

  /** `calculate_container_bounds`. */
  function ContainerBounds(c: ContainerConfig, content: Bounds, classes: map<string, SizeClass>,
                           placed: map<string, Bounds>): Outcome
  {
    var sc := SizeClassOf(c, classes);
    match ModeOf(c)
    case Exact => Placed(ExactBounds(c, content, sc))
    case Anchored => AnchoredOutcome(c, content, sc, placed)
    case Absolute => Placed(AbsoluteBounds(c, content, sc))
    case m => Placed(PositionedBounds(m, c, content))
  }

  /** Pixel coordinates win over every other setting: the position is taken
      verbatim whatever the placement rule, the anchor or the containers
      placed so far, and each side comes from the container, then the size
      class's fixed size, then its percentage (35 and 30 by default). */
  lemma ExactWins(c: ContainerConfig, content: Bounds, classes: map<string, SizeClass>,
                  placed: map<string, Bounds>, placed': map<string, Bounds>,
                  position: Option<string>, anchorTo: Option<string>)
    requires c.canvasX.Some? && c.canvasY.Some?
    ensures var r := ContainerBounds(c, content, classes, placed);
      var sc := SizeClassOf(c, classes);
      r.Placed? && r.bounds.x == c.canvasX.value && r.bounds.y == c.canvasY.value
      && (c.widthPx.Some? ==> r.bounds.w == c.widthPx.value)
      && (c.widthPx.None? && sc.fixedWidthPx.Some? ==> r.bounds.w == sc.fixedWidthPx.value)
      && (c.widthPx.None? && sc.fixedWidthPx.None? ==> r.bounds.w == Percent(content.w, sc.maxWidthPercent.GetOr(35.0)))
      && (c.heightPx.Some? ==> r.bounds.h == c.heightPx.value)
      && (c.heightPx.None? && sc.fixedHeightPx.Some? ==> r.bounds.h == sc.fixedHeightPx.value)
      && (c.heightPx.None? && sc.fixedHeightPx.None? ==> r.bounds.h == Percent(content.h, sc.maxHeightPercent.GetOr(30.0)))
      && r == ContainerBounds(c.(position := position, anchorTo := anchorTo), content, classes, placed')
  {
  }

  /** A floating container hangs off its anchor: it waits (`None`) until the
      anchor is placed; then its corner is the anchor's top, bottom or middle
      and left, right or centre, by the words in `anchor_side` ("top_left" by
      default), moved by the percentage offsets; without a fixed size it is
      square. */
  lemma AnchoredSpec(c: ContainerConfig, content: Bounds, classes: map<string, SizeClass>, placed: map<string, Bounds>)
    requires ModeOf(c) == Anchored
    ensures var r := ContainerBounds(c, content, classes, placed);
      var sc := SizeClassOf(c, classes);
      (r == AnchorNotPlaced <==> c.anchorTo.value !in placed)
      && (r == MissingFixedHeight <==> c.anchorTo.value in placed && sc.fixedWidthPx.Some? && sc.fixedHeightPx.None?)
      && (r.Placed? ==>
            var a, side := placed[c.anchorTo.value], c.anchorSide.GetOr("top_left");
            var px := r.bounds.x - Percent(content.w, c.offsetXPercent.GetOr(0.0));
            var py := r.bounds.y - Percent(content.h, c.offsetYPercent.GetOr(0.0));
            (Contains(side, "top") ==> py == a.y)
            && (!Contains(side, "top") && Contains(side, "bottom") ==> py == a.y + a.h)
            && (!Contains(side, "top") && !Contains(side, "bottom") ==> 2 * (py - a.y) <= a.h <= 2 * (py - a.y) + 1)
            && (Contains(side, "left") ==> px == a.x)
            && (!Contains(side, "left") && Contains(side, "right") ==> px == a.x + a.w)
            && (!Contains(side, "left") && !Contains(side, "right") ==> 2 * (px - a.x) <= a.w <= 2 * (px - a.x) + 1)
            && (sc.fixedWidthPx.None? ==> r.bounds.w == r.bounds.h))
  {
  }

  /** An absolutely positioned container measures its margins from the top
      and left edges of the content area, or from the bottom and right edges
      when a bottom or right margin is given; a zero margin puts it flush
      with that edge. */
  lemma AbsoluteEdges(c: ContainerConfig, content: Bounds, classes: map<string, SizeClass>, placed: map<string, Bounds>)
    requires ModeOf(c) == Absolute
    ensures var r := ContainerBounds(c, content, classes, placed);
      r.Placed? && var b := r.bounds;
      (c.marginBottomPercent.Some? ==> b.y + b.h + Percent(content.h, c.marginBottomPercent.value) == content.y + content.h)
      && (c.marginBottomPercent == Some(0.0) ==> b.y + b.h == content.y + content.h)
      && (c.marginBottomPercent.None? ==> b.y == content.y + Percent(content.h, c.marginTopPercent.GetOr(0.0)))
      && (c.marginRightPercent.Some? ==> b.x + b.w + Percent(content.w, c.marginRightPercent.value) == content.x + content.w)
      && (c.marginRightPercent == Some(0.0) ==> b.x + b.w == content.x + content.w)
      && (c.marginRightPercent.None? ==> b.x == content.x + Percent(content.w, c.marginLeftPercent.GetOr(0.0)))
  {
  }

  /** The named positions: "left" measures from the top-left corner, "right"
      from the top-right, "bottom_center" is centred across and measured from
      the bottom, anything else is a 30% box centred both ways; a right or
      bottom container with no margin sits flush with the content edge. */
  lemma PositionedEdges(c: ContainerConfig, content: Bounds, classes: map<string, SizeClass>, placed: map<string, Bounds>)
    requires ModeOf(c) in {Left, Right, BottomCenter, Centered}
    ensures var r := ContainerBounds(c, content, classes, placed);
      r.Placed? && var b := r.bounds;
      (ModeOf(c) == Left ==>
         b.x == content.x + Percent(content.w, c.marginLeftPercent.GetOr(0.0))
         && b.y == content.y + Percent(content.h, c.marginTopPercent.GetOr(0.0)))
      && (ModeOf(c) == Right ==>
         b.x + b.w + Percent(content.w, c.marginRightPercent.GetOr(0.0)) == content.x + content.w
         && b.y == content.y + Percent(content.h, c.marginTopPercent.GetOr(0.0))
         && (c.marginRightPercent.GetOr(0.0) == 0.0 ==> b.x + b.w == content.x + content.w))
      && (ModeOf(c) == BottomCenter ==>
         2 * (b.x - content.x) <= content.w - b.w <= 2 * (b.x - content.x) + 1
         && b.y + b.h + Percent(content.h, c.marginBottomPercent.GetOr(0.0)) == content.y + content.h
         && (c.marginBottomPercent.GetOr(0.0) == 0.0 ==> b.y + b.h == content.y + content.h))
      && (ModeOf(c) == Centered ==>
         2 * (b.x - content.x) <= content.w - b.w <= 2 * (b.x - content.x) + 1
         && 2 * (b.y - content.y) <= content.h - b.h <= 2 * (b.y - content.y) + 1)
  {
    TruncOfInt(0);
    assert 0.0 / 100.0 == 0.0;
  }

  /** Two non-negative percentages that add up to at most 100 take at most
      the whole of a non-negative length between them. */
  lemma PercentSum(total: int, a: real, b: real)
    requires total >= 0 && 0.0 <= a && 0.0 <= b && a + b <= 100.0
    ensures 0 <= Percent(total, a) && 0 <= Percent(total, b)
    ensures Percent(total, a) + Percent(total, b) <= total
  {
    TruncShares(total, a, b);
  }

  lemma TruncShares(total: int, a: real, b: real)
    requires total >= 0 && 0.0 <= a && 0.0 <= b && a + b <= 100.0
    ensures 0 <= Trunc(total as real * (a / 100.0)) && 0 <= Trunc(total as real * (b / 100.0))
    ensures Trunc(total as real * (a / 100.0)) + Trunc(total as real * (b / 100.0)) <= total
  {
    Shares(total as real, a, b);
    TruncSum(total as real * (a / 100.0), total as real * (b / 100.0), total);
  }

  lemma Shares(t: real, a: real, b: real)
    requires t >= 0.0 && 0.0 <= a && 0.0 <= b && a + b <= 100.0
    ensures 0.0 <= t * (a / 100.0) && 0.0 <= t * (b / 100.0)
    ensures t * (a / 100.0) + t * (b / 100.0) <= t
  {
    MulNonneg(t, a / 100.0);
    MulNonneg(t, b / 100.0);
    MulMonotone(t, (a + b) / 100.0, 1.0);
    assert t * (a / 100.0) + t * (b / 100.0) == t * ((a + b) / 100.0);
  }

  lemma TruncSum(u: real, v: real, total: int)
    requires 0.0 <= u && 0.0 <= v && u + v <= total as real
    ensures 0 <= Trunc(u) && 0 <= Trunc(v) && Trunc(u) + Trunc(v) <= total
  {
    TruncBounds(u);
    TruncBounds(v);
    assert (Trunc(u) + Trunc(v)) as real <= total as real;
  }

  /** A left or right container whose margin and width percentages are
      non-negative and add up to at most 100 lies across the content area. */
  lemma SideContainerInside(c: ContainerConfig, content: Bounds, classes: map<string, SizeClass>, placed: map<string, Bounds>)
    requires ModeOf(c) == Left || ModeOf(c) == Right
    requires content.w >= 0
    requires var m := if ModeOf(c) == Left then c.marginLeftPercent.GetOr(0.0) else c.marginRightPercent.GetOr(0.0);
      0.0 <= m && 0.0 <= c.maxWidthPercent.GetOr(35.0) && m + c.maxWidthPercent.GetOr(35.0) <= 100.0
    ensures var r := ContainerBounds(c, content, classes, placed);
      r.Placed? && content.x <= r.bounds.x && r.bounds.x + r.bounds.w <= content.x + content.w
  {
    var m := if ModeOf(c) == Left then c.marginLeftPercent.GetOr(0.0) else c.marginRightPercent.GetOr(0.0);
    PercentSum(content.w, m, c.maxWidthPercent.GetOr(35.0));
  }

  // ---------------------------------------------------------------------
  // discover_products_filenames
  // ---------------------------------------------------------------------

  /** `auto_map`: filename pattern and role, in the dictionary's order. */
  const AutoMap: seq<(string, string)> := [
    ("towel", "hero_left"),
    ("bag", "hero_right"),
    ("mug", "cluster_bottom"),
    ("magnet", "accessory_small"),
    ("keyring", "accessory_tiny"),
    ("frame", "support_large"),
    ("notebook", "support_medium"),
    ("greeting", "support_medium_large")]

  /** The roles after the lower-cased file name `name` at `path` has been
      tried against the first `k` patterns: every pattern it contains gives
      its role that path. */
  function RolesApplied(m: map<string, string>, name: string, path: string, k: nat): map<string, string>
    requires k <= |AutoMap|
  {
    if k == 0 then m
    else
      var prev := RolesApplied(m, name, path, k - 1);
      if Contains(name, AutoMap[k - 1].0) then prev[AutoMap[k - 1].1 := path] else prev
  }

  /** The mapping after the first `n` files of the listing. */
  function Discovered(directory: string, listing: seq<string>, n: nat): map<string, string>
    requires n <= |listing|
  {
    if n == 0 then map[] else DiscoverStep(directory, Discovered(directory, listing, n - 1), listing[n - 1])
  }

  /** What one file of the listing does to the mapping. */
  function DiscoverStep(directory: string, prev: map<string, string>, f: string): map<string, string> {
    if EndsWith(Lower(f), ".png") then RolesApplied(prev, Lower(f), JoinPath(directory, f), |AutoMap|) else prev
  }

  /** `discover_products_filenames`, given whether the folder exists and
      its listing. */
  method DiscoverProductsFilenames(directory: string, directoryExists: bool, listing: seq<string>)
    returns (mapping: map<string, string>)
    ensures mapping == if directoryExists then Discovered(directory, listing, |listing|) else map[]
  {
    mapping := map[];
    if directoryExists {
      for i := 0 to |listing|
        invariant mapping == Discovered(directory, listing, i)
      {
        var filename := listing[i];
        var lowerName := Lower(filename);
        if EndsWith(lowerName, ".png") {
          var path := JoinPath(directory, filename);
          ghost var before := mapping;
          for k := 0 to |AutoMap|
            invariant mapping == RolesApplied(before, lowerName, path, k)
          {
            var (key, role) := AutoMap[k];
            if Contains(lowerName, key) {
              mapping := mapping[role := path];
            }
          }
        }
      }
    }
  }

  /** File `f` is a `.png` whose lower-cased name holds pattern `k`. */
  predicate Matches(f: string, k: nat)
    requires k < |AutoMap|
  {
    EndsWith(Lower(f), ".png") && Contains(Lower(f), AutoMap[k].0)
  }

  function AutoMapRoles(): set<string> {
    set k | 0 <= k < |AutoMap| :: AutoMap[k].1
  }

  lemma {:induction false} RolesAppliedAt(m: map<string, string>, name: string, path: string, n: nat, k: nat)
    requires n <= |AutoMap| && k < |AutoMap|
    ensures var r, role := RolesApplied(m, name, path, n), AutoMap[k].1;
      var hit := k < n && Contains(name, AutoMap[k].0);
      (role in r <==> hit || role in m) && (role in r ==> r[role] == if hit then path else m[role])
    decreases n
  {
    if n > 0 {
      RolesAppliedAt(m, name, path, n - 1, k);
    }
  }

  lemma {:induction false} RolesAppliedKeys(m: map<string, string>, name: string, path: string, n: nat)
    requires n <= |AutoMap|
    ensures RolesApplied(m, name, path, n).Keys <= m.Keys + AutoMapRoles()
    decreases n
  {
    if n > 0 {
      RolesAppliedKeys(m, name, path, n - 1);
      assert AutoMap[n - 1].1 in AutoMapRoles();
    }
  }

  /** Each role goes to the last `.png` file of the listing that holds its
      pattern, and to nothing when there is none; one file can take several
      roles, and no other key appears. */
  lemma DiscoveredSpec(directory: string, listing: seq<string>, n: nat, k: nat)
    requires n <= |listing| && k < |AutoMap|
    ensures var d, role := Discovered(directory, listing, n), AutoMap[k].1;
      (role in d <==> exists j :: 0 <= j < n && Matches(listing[j], k))
      && (role in d ==> exists j :: 0 <= j < n && Matches(listing[j], k)
                          && d[role] == JoinPath(directory, listing[j])
                          && forall i :: j < i < n ==> !Matches(listing[i], k))
    ensures Discovered(directory, listing, n).Keys <= AutoMapRoles()
  {
    DiscoveredAt(directory, listing, n, k);
  }

  /** Some one of the first `n` files matches pattern `k`. */
  predicate SomeMatch(listing: seq<string>, n: nat, k: nat)
    requires n <= |listing| && k < |AutoMap|
  {
    exists j :: 0 <= j < n && Matches(listing[j], k)
  }

  /** `path` is the path of one of the first `n` files that matches pattern
      `k`, and no later one of them matches it. */
  predicate LastMatch(directory: string, listing: seq<string>, n: nat, k: nat, path: string)
    requires n <= |listing| && k < |AutoMap|
  {
    exists j :: 0 <= j < n && Matches(listing[j], k) && path == JoinPath(directory, listing[j])
      && NoMatchBetween(listing, j, n, k)
  }

  /** None of the files after the `j`-th and before the `n`-th matches
      pattern `k`. */
  predicate NoMatchBetween(listing: seq<string>, j: nat, n: nat, k: nat)
    requires n <= |listing| && k < |AutoMap|
  {
    forall i :: j < i < n ==> !Matches(listing[i], k)
  }

  lemma DiscoveredAt(directory: string, listing: seq<string>, n: nat, k: nat)
    requires n <= |listing| && k < |AutoMap|
    ensures var d, role := Discovered(directory, listing, n), AutoMap[k].1;
      (role in d <==> SomeMatch(listing, n, k)) && (role in d ==> LastMatch(directory, listing, n, k, d[role]))
    ensures Discovered(directory, listing, n).Keys <= AutoMapRoles()
  {
    DiscoveredHas(directory, listing, n, k);
    DiscoveredLast(directory, listing, n, k);
    DiscoveredKeys(directory, listing, n);
  }

  lemma {:induction false} DiscoveredHas(directory: string, listing: seq<string>, n: nat, k: nat)
    requires n <= |listing| && k < |AutoMap|
    ensures AutoMap[k].1 in Discovered(directory, listing, n) <==> SomeMatch(listing, n, k)
    decreases n
  {
    if n > 0 {
      DiscoveredHas(directory, listing, n - 1, k);
      var prev, f := Discovered(directory, listing, n - 1), listing[n - 1];
      DiscoverStepAt(directory, prev, f, k);
      if Matches(f, k) {
        assert Matches(listing[n - 1], k);
      } else {
        if SomeMatch(listing, n, k) {
          var j :| 0 <= j < n && Matches(listing[j], k);
          assert j < n - 1;
        }
        if SomeMatch(listing, n - 1, k) {
          var j :| 0 <= j < n - 1 && Matches(listing[j], k);
          assert 0 <= j < n;
        }
      }
    }
  }

  lemma {:induction false} DiscoveredLast(directory: string, listing: seq<string>, n: nat, k: nat)
    requires n <= |listing| && k < |AutoMap|
    ensures var d, role := Discovered(directory, listing, n), AutoMap[k].1;
      role in d ==> LastMatch(directory, listing, n, k, d[role])
    decreases n
  {
    if n > 0 {
      DiscoveredLast(directory, listing, n - 1, k);
      var prev, f := Discovered(directory, listing, n - 1), listing[n - 1];
      var role := AutoMap[k].1;
      DiscoverStepAt(directory, prev, f, k);
      if Matches(f, k) {
        assert LastMatch(directory, listing, n, k, JoinPath(directory, f)) by {
          assert Matches(listing[n - 1], k);
        }
      } else if role in prev {
        assert LastMatch(directory, listing, n - 1, k, prev[role]);
        var j :| 0 <= j < n - 1 && Matches(listing[j], k) && prev[role] == JoinPath(directory, listing[j])
                 && NoMatchBetween(listing, j, n - 1, k);
        assert NoMatchBetween(listing, j, n, k) by {
          forall i | j < i < n ensures !Matches(listing[i], k) {
            if i == n - 1 {
              assert listing[i] == f;
            }
          }
        }
        assert LastMatch(directory, listing, n, k, prev[role]);
      }
    }
  }

  lemma {:induction false} DiscoveredKeys(directory: string, listing: seq<string>, n: nat)
    requires n <= |listing|
    ensures Discovered(directory, listing, n).Keys <= AutoMapRoles()
    decreases n
  {
    if n > 0 {
      DiscoveredKeys(directory, listing, n - 1);
      DiscoverStepAt(directory, Discovered(directory, listing, n - 1), listing[n - 1], 0);
    }
  }

  /** A file matching pattern `k` sets its role to its path; any other file
      leaves the role as it was; no file adds a key outside the table. */
  lemma DiscoverStepAt(directory: string, prev: map<string, string>, f: string, k: nat)
    requires k < |AutoMap|
    ensures var d, role := DiscoverStep(directory, prev, f), AutoMap[k].1;
      (Matches(f, k) ==> role in d && d[role] == JoinPath(directory, f))
      && (!Matches(f, k) ==> (role in d <==> role in prev) && (role in d ==> d[role] == prev[role]))
      && d.Keys <= prev.Keys + AutoMapRoles()
  {
    if EndsWith(Lower(f), ".png") {
      RolesAppliedAt(prev, Lower(f), JoinPath(directory, f), |AutoMap|, k);
      RolesAppliedKeys(prev, Lower(f), JoinPath(directory, f), |AutoMap|);
    }
  }

  /** There is no `break`: a file whose name holds two patterns (say
      "towel_bag.png") fills both roles. */
  lemma OneFileTwoRoles(directory: string, f: string, k1: nat, k2: nat)
    requires k1 < |AutoMap| && k2 < |AutoMap| && Matches(f, k1) && Matches(f, k2)
    ensures var d := Discovered(directory, [f], 1);
      AutoMap[k1].1 in d && AutoMap[k2].1 in d
      && d[AutoMap[k1].1] == d[AutoMap[k2].1] == JoinPath(directory, f)
  {
    DiscoveredSpec(directory, [f], 1, k1);
    DiscoveredSpec(directory, [f], 1, k2);
  }

  // ---------------------------------------------------------------------
  // map_products_to_containers
  // ---------------------------------------------------------------------

  /** The first pass's heuristic: a file a container of `role` takes. */
  predicate Suits(role: string, f: string) {
    var l := Lower(f);
    (role == "hero" && Contains(l, "towel"))
    || (role == "accessory" && (Contains(l, "magnet") || Contains(l, "keyring")))
    || role == "support"
    || (role == "cluster" && Contains(l, "mug"))
  }

  /** What a container looks for: files suiting its role, then any file. */
  datatype Want = ForRole(role: string) | AnyFile

  predicate Wants(w: Want, f: string) {
    match w
    case ForRole(role) => Suits(role, f)
    case AnyFile => true
  }

  /** The first file from index `j` on that is not used yet and is wanted. */
  function FirstFree(files: seq<string>, used: set<string>, w: Want, j: nat): (r: Option<string>)
    requires j <= |files|
    ensures r.Some? ==> r.value in files && r.value !in used && Wants(w, r.value)
    ensures r.None? ==> forall i :: j <= i < |files| ==> files[i] in used || !Wants(w, files[i])
    decreases |files| - j
  {
    if j == |files| then None
    else if files[j] !in used && Wants(w, files[j]) then Some(files[j])
    else FirstFree(files, used, w, j + 1)
  }

  /** `mapping` and `used_products`. */
  datatype Assignment = Assignment(mapping: map<string, string>, used: set<string>)

  function Give(st: Assignment, id: string, pick: Option<string>): Assignment {
    if pick.Some? then Assignment(st.mapping[id := pick.value], st.used + {pick.value}) else st
  }

  /** The first pass over the first `n` containers. */
  function RolePass(cs: seq<ContainerConfig>, files: seq<string>, n: nat): Assignment
    requires n <= |cs|
  {
    if n == 0 then Assignment(map[], {})
    else
      var st := RolePass(cs, files, n - 1);
      Give(st, cs[n - 1].id, FirstFree(files, st.used, ForRole(cs[n - 1].role.GetOr("support")), 0))
  }

  /** The second pass over the first `n` containers, from `start`. */
  function FillPass(cs: seq<ContainerConfig>, files: seq<string>, start: Assignment, n: nat): Assignment
    requires n <= |cs|
  {
    if n == 0 then start
    else
      var st := FillPass(cs, files, start, n - 1);
      if cs[n - 1].id !in st.mapping && files != [] then Give(st, cs[n - 1].id, FirstFree(files, st.used, AnyFile, 0))
      else st
  }

  /** The image files of the listing, in its order. */
  function ProductFiles(listing: seq<string>): seq<string> {
    Filter(listing, SmartClassify.IsImageFile)
  }

  function MappedProducts(listing: seq<string>, cs: seq<ContainerConfig>): map<string, string> {
    var files := ProductFiles(listing);
    FillPass(cs, files, RolePass(cs, files, |cs|), |cs|).mapping
  }

  /** `map_products_to_containers`, given the folder's listing. */
  method MapProductsToContainers(listing: seq<string>, containers: seq<ContainerConfig>)
    returns (mapping: map<string, string>)
    ensures mapping == MappedProducts(listing, containers)
  {
    var productFiles := ProductFiles(listing);
    mapping := map[];
    var usedProducts: set<string> := {};
    for i := 0 to |containers|
      invariant Assignment(mapping, usedProducts) == RolePass(containers, productFiles, i)
    {
      var containerId := containers[i].id;
      var role := containers[i].role.GetOr("support");
      ghost var st := Assignment(mapping, usedProducts);
      var j := 0;
      while j < |productFiles|
        invariant 0 <= j <= |productFiles|
        invariant Assignment(mapping, usedProducts) == st
        invariant FirstFree(productFiles, st.used, ForRole(role), 0) == FirstFree(productFiles, st.used, ForRole(role), j)
      {
        var productFile := productFiles[j];
        if productFile !in usedProducts && Suits(role, productFile) {
          mapping := mapping[containerId := productFile];
          usedProducts := usedProducts + {productFile};
          break;
        }
        j := j + 1;
      }
    }
    ghost var first := Assignment(mapping, usedProducts);
    for i := 0 to |containers|
      invariant Assignment(mapping, usedProducts) == FillPass(containers, productFiles, first, i)
    {
      var containerId := containers[i].id;
      if containerId !in mapping && productFiles != [] {
        ghost var st := Assignment(mapping, usedProducts);
        var j := 0;
        while j < |productFiles|
          invariant 0 <= j <= |productFiles|
          invariant Assignment(mapping, usedProducts) == st
          invariant FirstFree(productFiles, st.used, AnyFile, 0) == FirstFree(productFiles, st.used, AnyFile, j)
        {
          var productFile := productFiles[j];
          if productFile !in usedProducts {
            mapping := mapping[containerId := productFile];
            usedProducts := usedProducts + {productFile};
            break;
          }
          j := j + 1;
        }
      }
    }
  }

  /** Every mapped file is one of the used product files, no file is mapped
      twice, and only configured container ids are keys. */
  predicate Consistent(st: Assignment, files: seq<string>, cs: seq<ContainerConfig>) {
    (forall id :: id in st.mapping ==> st.mapping[id] in st.used)
    && (forall f :: f in st.used ==> f in files)
    && (forall a, b :: a in st.mapping && b in st.mapping && a != b ==> st.mapping[a] != st.mapping[b])
    && (forall id :: id in st.mapping ==> exists i :: 0 <= i < |cs| && cs[i].id == id)
  }

  lemma GiveConsistent(st: Assignment, files: seq<string>, cs: seq<ContainerConfig>, i: nat, pick: Option<string>)
    requires Consistent(st, files, cs) && i < |cs|
    requires pick.Some? ==> pick.value in files && pick.value !in st.used
    ensures Consistent(Give(st, cs[i].id, pick), files, cs)
  {
  }

  lemma {:induction false} RolePassConsistent(cs: seq<ContainerConfig>, files: seq<string>, n: nat)
    requires n <= |cs|
    ensures Consistent(RolePass(cs, files, n), files, cs)
    decreases n
  {
    if n > 0 {
      RolePassConsistent(cs, files, n - 1);
      var st := RolePass(cs, files, n - 1);
      GiveConsistent(st, files, cs, n - 1, FirstFree(files, st.used, ForRole(cs[n - 1].role.GetOr("support")), 0));
    }
  }

  lemma {:induction false} FillPassConsistent(cs: seq<ContainerConfig>, files: seq<string>, start: Assignment, n: nat)
    requires n <= |cs| && Consistent(start, files, cs)
    ensures Consistent(FillPass(cs, files, start, n), files, cs)
    decreases n
  {
    if n > 0 {
      FillPassConsistent(cs, files, start, n - 1);
      var st := FillPass(cs, files, start, n - 1);
      GiveConsistent(st, files, cs, n - 1, FirstFree(files, st.used, AnyFile, 0));
    }
  }

  /** Each product file is used at most once: the mapping sends container
      ids to distinct image files of the listing. */
  lemma MappedProductsDistinct(listing: seq<string>, cs: seq<ContainerConfig>)
    ensures var m := MappedProducts(listing, cs);
      (forall id :: id in m ==> m[id] in listing && SmartClassify.IsImageFile(m[id]))
      && (forall a, b :: a in m && b in m && a != b ==> m[a] != m[b])
      && (forall id :: id in m ==> exists i :: 0 <= i < |cs| && cs[i].id == id)
  {
    var files := ProductFiles(listing);
    FilterMembers(listing, SmartClassify.IsImageFile);
    RolePassConsistent(cs, files, |cs|);
    FillPassConsistent(cs, files, RolePass(cs, files, |cs|), |cs|);
  }

  /** No two containers share an id. */
  predicate DistinctIds(cs: seq<ContainerConfig>) {
    forall i, j :: 0 <= i < j < |cs| ==> cs[i].id != cs[j].id
  }

  /** The ids of the first `n` containers. */
  function IdSet(cs: seq<ContainerConfig>, n: nat): set<string>
    requires n <= |cs|
  {
    if n == 0 then {} else IdSet(cs, n - 1) + {cs[n - 1].id}
  }

  lemma {:induction false} IdSetMembers(cs: seq<ContainerConfig>, n: nat)
    requires n <= |cs|
    ensures forall x :: x in IdSet(cs, n) <==> exists i :: 0 <= i < n && cs[i].id == x
    decreases n
  {
    if n > 0 {
      IdSetMembers(cs, n - 1);
    }
  }

  lemma {:induction false} IdSetCard(cs: seq<ContainerConfig>, n: nat)
    requires n <= |cs| && DistinctIds(cs)
    ensures |IdSet(cs, n)| == n
    decreases n
  {
    if n > 0 {
      IdSetCard(cs, n - 1);
      IdSetMembers(cs, n - 1);
      assert cs[n - 1].id !in IdSet(cs, n - 1);
    }
  }

  lemma {:induction false} IdSetPrefix(cs: seq<ContainerConfig>, n: nat, m: nat)
    requires 0 < n <= m <= |cs|
    ensures cs[n - 1].id in IdSet(cs, m) && IdSet(cs, n) <= IdSet(cs, m)
    decreases m
  {
    if m > n {
      IdSetPrefix(cs, n, m - 1);
    }
  }

  lemma {:induction false} RolePassBalanced(cs: seq<ContainerConfig>, files: seq<string>, n: nat)
    requires n <= |cs| && DistinctIds(cs)
    ensures var st := RolePass(cs, files, n);
      |st.mapping| == |st.used| && st.mapping.Keys <= IdSet(cs, n)
    decreases n
  {
    if n > 0 {
      RolePassBalanced(cs, files, n - 1);
      IdSetMembers(cs, n - 1);
      var st := RolePass(cs, files, n - 1);
      var id := cs[n - 1].id;
      var pick := FirstFree(files, st.used, ForRole(cs[n - 1].role.GetOr("support")), 0);
      assert id !in st.mapping;
      if pick.Some? {
        GiveBalanced(st, id, pick.value);
      }
    }
  }

  lemma {:induction false} FillPassBalanced(cs: seq<ContainerConfig>, files: seq<string>, start: Assignment, n: nat)
    requires n <= |cs| && |start.mapping| == |start.used|
    ensures |FillPass(cs, files, start, n).mapping| == |FillPass(cs, files, start, n).used|
    decreases n
  {
    if n > 0 {
      FillPassBalanced(cs, files, start, n - 1);
      FillStepBalanced(FillPass(cs, files, start, n - 1), cs[n - 1].id, files);
    }
  }

  /** One step of the second pass keeps as many keys as used files. */
  lemma FillStepBalanced(st: Assignment, id: string, files: seq<string>)
    requires |st.mapping| == |st.used|
    ensures var st' := if id !in st.mapping && files != [] then Give(st, id, FirstFree(files, st.used, AnyFile, 0)) else st;
      |st'.mapping| == |st'.used|
  {
    if id !in st.mapping && files != [] {
      var pick := FirstFree(files, st.used, AnyFile, 0);
      if pick.Some? {
        GiveBalanced(st, id, pick.value);
      }
    }
  }

  /** Giving an unused file to a container without one adds one key and
      one used file. */
  lemma GiveBalanced(st: Assignment, id: string, f: string)
    requires id !in st.mapping && f !in st.used
    ensures |st.mapping[id := f]| == |st.mapping| + 1 && |st.used + {f}| == |st.used| + 1
    ensures st.mapping[id := f].Keys == st.mapping.Keys + {id}
  {
    assert st.mapping[id := f].Keys == st.mapping.Keys + {id};
  }

  /** Every file of the list is used. */
  predicate AllUsed(files: seq<string>, used: set<string>) {
    forall f :: f in files ==> f in used
  }

  /** After the second pass over the first `n` containers each of them has a
      file, or every file is used. */
  lemma {:induction false} FillPassCovers(cs: seq<ContainerConfig>, files: seq<string>, start: Assignment, n: nat)
    requires n <= |cs|
    ensures var st := FillPass(cs, files, start, n);
      IdSet(cs, n) <= st.mapping.Keys || AllUsed(files, st.used)
    decreases n
  {
    if n > 0 {
      FillPassCovers(cs, files, start, n - 1);
      var st := FillPass(cs, files, start, n - 1);
      var st' := FillPass(cs, files, start, n);
      var id := cs[n - 1].id;
      assert IdSet(cs, n) == IdSet(cs, n - 1) + {id};
      if id in st.mapping {
        assert st' == st;
      } else if files == [] {
        assert AllUsed(files, st'.used);
      } else {
        var pick := FirstFree(files, st.used, AnyFile, 0);
        assert st' == Give(st, id, pick);
        if pick.None? {
          forall f | f in files ensures f in st.used {
            var i :| 0 <= i < |files| && files[i] == f;
          }
        } else if IdSet(cs, n - 1) <= st.mapping.Keys {
          assert id in st'.mapping.Keys;
        } else {
          // every file is used already, so the search cannot find one
          assert false;
        }
      }
    }
  }

  /** With distinct container ids and a folder listing without repeats,
      every container gets a product until the products run out: the mapping
      has as many entries as the smaller of the two counts. */
  lemma MappedProductsCount(listing: seq<string>, cs: seq<ContainerConfig>)
    requires DistinctIds(cs) && NoDup(listing)
    ensures |MappedProducts(listing, cs)| == Min(|cs|, |ProductFiles(listing)|)
  {
    var files := ProductFiles(listing);
    var start := RolePass(cs, files, |cs|);
    RolePassConsistent(cs, files, |cs|);
    RolePassBalanced(cs, files, |cs|);
    IdSetCard(cs, |cs|);
    IdSetMembers(cs, |cs|);
    FillPassBalanced(cs, files, start, |cs|);
    FillPassCovers(cs, files, start, |cs|);
    FillPassConsistent(cs, files, start, |cs|);
    var st := FillPass(cs, files, start, |cs|);
    FilterNoDup(listing, SmartClassify.IsImageFile);
    ElementsCard(files);
    assert st.used <= Elements(files);
    SubsetCard(st.used, Elements(files));
    assert st.mapping.Keys <= IdSet(cs, |cs|);
    SubsetCard(st.mapping.Keys, IdSet(cs, |cs|));
    if IdSet(cs, |cs|) <= st.mapping.Keys {
      assert st.mapping.Keys == IdSet(cs, |cs|);
    } else {
      assert st.used == Elements(files);
    }
  }
}
