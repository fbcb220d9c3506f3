/** The JSON-driven storyboard generator (generate_from_json.py): the
    merge of template files into the configuration's presets, the
    filename-based mapping of products to zones, the "contain" fit of an
    image into a zone, and the lookup of the requested layout.

    File reading, the folder listing and the drawing are left out; parsed
    files, the listing and file existence are inputs. `hex_to_rgb` here is
    the same code as in the anchored generator and is modelled once, by
    `GenerateCollage.HexToRgb`. */
module GenerateFromJson {
  import opened Common
  import ImageUtils
  import GenerateCollage

  // ---------------------------------------------------------------------
  // load_config
  // ---------------------------------------------------------------------

  /** What a template file holds once parsed: a "presets" table (checked
      first), else a single layout with "containers" (the whole file is the
      layout), else neither; or it could not be read or parsed. */
  datatype TemplateData<P> = WithPresets(presets: map<string, P>) | WithContainers(layout: P) | Neither | Unreadable

  datatype TemplateFile<P> = TemplateFile(path: string, data: TemplateData<P>)

  /** `os.path.basename`: the text after the last `/`. */
  function Basename(path: string): (r: string)
    ensures '/' !in r
    decreases |path|
  {
    if path == [] || path[|path| - 1] == '/' then []
    else Basename(path[..|path| - 1]) + [path[|path| - 1]]
  }

  /** The preset name of a containers file:
      `os.path.basename(t_file).replace(".json", "")`. */
  function TemplateName(path: string): string {
    ReplaceAll(Basename(path), ".json", "")
  }

  /** The presets after the first `n` template files, starting from the
      configuration's own ("presets" absent is the empty table). */
  function Merged<P>(base: Option<map<string, P>>, templates: seq<TemplateFile<P>>, n: nat): map<string, P>
    requires n <= |templates|
  {
    if n == 0 then base.GetOr(map[])
    else
      var prev := Merged(base, templates, n - 1);
      var t := templates[n - 1];
      match t.data
      case WithPresets(m) => prev + m
      case WithContainers(layout) => prev[TemplateName(t.path) := layout]
      case _ => prev
  }

  /** `load_config` after the configuration file itself has been read:
      the final `config["presets"]`. */
  method LoadConfig<P>(base: Option<map<string, P>>, templates: seq<TemplateFile<P>>) returns (presets: map<string, P>)
    ensures presets == Merged(base, templates, |templates|)
  {
    presets := if base.Some? then base.value else map[];
    for i := 0 to |templates|
      invariant presets == Merged(base, templates, i)
    {
      var t := templates[i];
      match t.data {
        case WithPresets(m) =>
          presets := presets + m;
        case WithContainers(layout) =>
          var name := TemplateName(t.path);
          presets := presets[name := layout];
        case Neither =>
        case Unreadable =>
      }
    }
  }

  /** Template file `t` defines preset `k`. */
  predicate Defines<P>(t: TemplateFile<P>, k: string) {
    (t.data.WithPresets? && k in t.data.presets) || (t.data.WithContainers? && TemplateName(t.path) == k)
  }

  /** The value `t` gives the presets it defines. */
  function Definition<P>(t: TemplateFile<P>, k: string): P
    requires Defines(t, k)
  {
    if t.data.WithPresets? && k in t.data.presets then t.data.presets[k] else t.data.layout
  }

  /** A preset exists when the configuration or some template file defines
      it; it holds the definition of the last file that does, and the
      configuration's own only when no file does. */
  lemma {:induction false} MergedSpec<P>(base: Option<map<string, P>>, templates: seq<TemplateFile<P>>, n: nat, k: string)
    requires n <= |templates|
    ensures var m := Merged(base, templates, n);
      (k in m <==> k in base.GetOr(map[]) || exists j :: 0 <= j < n && Defines(templates[j], k))
      && ((forall j :: 0 <= j < n ==> !Defines(templates[j], k)) && k in m ==> m[k] == base.GetOr(map[])[k])
      && (k in m && (exists j :: 0 <= j < n && Defines(templates[j], k)) ==>
            exists j :: 0 <= j < n && Defines(templates[j], k) && m[k] == Definition(templates[j], k)
                        && forall i :: j < i < n ==> !Defines(templates[i], k))
    decreases n
  {
    if n > 0 {
      MergedSpec(base, templates, n - 1, k);
      var prev, t := Merged(base, templates, n - 1), templates[n - 1];
      var m := Merged(base, templates, n);
      if Defines(t, k) {
        assert m[k] == Definition(t, k);
      } else {
        assert (k in m <==> k in prev) && (k in m ==> m[k] == prev[k]);
        if k in m && exists j :: 0 <= j < n - 1 && Defines(templates[j], k) {
          var j :| 0 <= j < n - 1 && Defines(templates[j], k) && prev[k] == Definition(templates[j], k)
                   && forall i :: j < i < n - 1 ==> !Defines(templates[i], k);
          assert forall i :: j < i < n ==> !Defines(templates[i], k);
        }
      }
    }
  }

  /** `replace` removes a pattern that occurs only at the very end. */
  lemma {:induction false} ReplaceTrailing(a: string, pat: string)
    requires |pat| > 0
    requires forall i :: 0 <= i < |a| ==> !OccursAt(a + pat, pat, i)
    ensures ReplaceAll(a + pat, pat, "") == a
    decreases |a|
  {
    var s := a + pat;
    if a == [] {
      assert s == pat && s[|pat|..] == [];
    } else {
      assert !OccursAt(s, pat, 0);
      assert s[1..] == a[1..] + pat;
      forall i | 0 <= i < |a[1..]| ensures !OccursAt(a[1..] + pat, pat, i) {
        assert (a[1..] + pat)[i..i + |pat|] == s[i + 1..i + 1 + |pat|];
        assert !OccursAt(s, pat, i + 1);
      }
      ReplaceTrailing(a[1..], pat);
    }
  }

  lemma {:induction false} BasenameAppend(dir: string, name: string)
    requires '/' !in name && (dir == [] || dir[|dir| - 1] == '/')
    ensures Basename(dir + name) == name
    decreases |name|
  {
    if name == [] {
      assert dir + name == dir;
    } else {
      var path := dir + name;
      var init := name[..|name| - 1];
      var last := name[|name| - 1];
      assert path[|path| - 1] == last && last != '/';
      assert path[..|path| - 1] == dir + init;
      assert Basename(path) == Basename(dir + init) + [last];
      assert '/' !in init;
      BasenameAppend(dir, init);
      assert init + [last] == name;
    }
  }

  /** A file `<name>.json` of any folder becomes preset `<name>` when the
      name holds no `/` and ".json" occurs only as the extension. */
  lemma TemplateNameOfFile(dir: string, name: string)
    requires '/' !in name
    requires forall i :: 0 <= i < |name| ==> !OccursAt(name + ".json", ".json", i)
    ensures TemplateName(JoinPath(dir, name + ".json")) == name
  {
    var file := name + ".json";
    assert '/' !in file;
    if dir == [] || EndsWith(dir, "/") {
      BasenameAppend(dir, file);
    } else {
      assert JoinPath(dir, file) == (dir + "/") + file;
      BasenameAppend(dir + "/", file);
    }
    ReplaceTrailing(name, ".json");
  }

  // ---------------------------------------------------------------------
  // load_product_mapping
  // ---------------------------------------------------------------------

  /** `auto_map`: filename pattern and zone id, in the dictionary's order. */
  const ZoneMap: seq<(string, string)> := [
    ("towel", "tea_towel"),
    ("mug", "mug_set"),
    ("magnet", "magnet"),
    ("keyring", "keyring"),
    ("bag", "bag"),
    ("frame", "mounted_print"),
    ("notebook", "book"),
    ("greeting", "greeting_card")]

  /** The zones' ids are distinct, so each zone has one pattern. */
  predicate DistinctZones(table: seq<(string, string)>) {
    forall i, j :: 0 <= i < j < |table| ==> table[i].1 != table[j].1
  }

  lemma ZoneMapDistinct()
    ensures DistinctZones(ZoneMap)
  {
  }

  /** The first pattern of `table` from index `k` on that the lower-cased
      name holds. */
  function FirstPattern(table: seq<(string, string)>, name: string, k: nat): (r: Option<nat>)
    requires k <= |table|
    ensures r.Some? ==> k <= r.value < |table| && Contains(name, table[r.value].0)
                        && forall i :: k <= i < r.value ==> !Contains(name, table[i].0)
    ensures r.None? ==> forall i :: k <= i < |table| ==> !Contains(name, table[i].0)
    decreases |table| - k
  {
    if k == |table| then None
    else if Contains(name, table[k].0) then Some(k)
    else FirstPattern(table, name, k + 1)
  }

  /** File `f` is a `.png` whose first matching pattern is number `k`. */
  predicate GoesTo(table: seq<(string, string)>, f: string, k: nat) {
    EndsWith(Lower(f), ".png") && FirstPattern(table, Lower(f), 0) == Some(k)
  }

  /** What file `f` adds to the mapping `prev`. */
  function LoadStep(table: seq<(string, string)>, directory: string, prev: map<string, string>, f: string): map<string, string> {
    var k := FirstPattern(table, Lower(f), 0);
    if EndsWith(Lower(f), ".png") && k.Some? then prev[table[k.value].1 := JoinPath(directory, f)] else prev
  }

  /** The mapping after the first `n` files of the listing. */
  function Loaded(table: seq<(string, string)>, directory: string, listing: seq<string>, n: nat): map<string, string>
    requires n <= |listing|
  {
    if n == 0 then map[] else LoadStep(table, directory, Loaded(table, directory, listing, n - 1), listing[n - 1])
  }

  /** The inner loop of `load_product_mapping`: the first pattern the
      lower-cased name holds. */
  method MatchPattern(table: seq<(string, string)>, lowerName: string) returns (k: Option<nat>)
    ensures k == FirstPattern(table, lowerName, 0)
  {
    k := None;
    var i := 0;
    while i < |table|
      invariant 0 <= i <= |table|
      invariant FirstPattern(table, lowerName, 0) == FirstPattern(table, lowerName, i)
    {
      if Contains(lowerName, table[i].0) {
        k := Some(i);
        break;
      }
      i := i + 1;
    }
  }

  /** The body of the outer loop of `load_product_mapping`. */
  method LoadFile(table: seq<(string, string)>, directory: string, mapping: map<string, string>, filename: string)
    returns (r: map<string, string>)
    ensures r == LoadStep(table, directory, mapping, filename)
  {
    r := mapping;
    var lowerName := Lower(filename);
    if EndsWith(lowerName, ".png") {
      var k := MatchPattern(table, lowerName);
      if k.Some? {
        r := r[table[k.value].1 := JoinPath(directory, filename)];
      }
    }
  }

  /** `load_product_mapping`, given whether the folder exists and its
      listing. */
  method LoadProductMapping(directory: string, directoryExists: bool, listing: seq<string>)
    returns (mapping: map<string, string>)
    ensures mapping == if directoryExists then Loaded(ZoneMap, directory, listing, |listing|) else map[]
  {
    mapping := map[];
    if directoryExists {
      for i := 0 to |listing|
        invariant mapping == Loaded(ZoneMap, directory, listing, i)
      {
        mapping := LoadFile(ZoneMap, directory, mapping, listing[i]);
      }
    }
  }

  /** A zone is mapped exactly when some `.png` file's first matching
      pattern is the zone's. */
  lemma {:induction false} LoadedHas(table: seq<(string, string)>, directory: string, listing: seq<string>, n: nat, k: nat)
    requires DistinctZones(table)
    requires n <= |listing| && k < |table|
    ensures table[k].1 in Loaded(table, directory, listing, n) <==> exists j :: 0 <= j < n && GoesTo(table, listing[j], k)
    decreases n
  {
    if n > 0 {
      LoadedHas(table, directory, listing, n - 1, k);
      LoadStepSpec(table, directory, Loaded(table, directory, listing, n - 1), listing[n - 1], k);
    }
  }

  /** A mapped zone holds the path of the last such file. */
  lemma {:induction false} LoadedLast(table: seq<(string, string)>, directory: string, listing: seq<string>, n: nat, k: nat)
    requires DistinctZones(table)
    requires n <= |listing| && k < |table|
    ensures table[k].1 in Loaded(table, directory, listing, n) ==>
      LastGoingTo(table, directory, listing, n, k, Loaded(table, directory, listing, n)[table[k].1])
    decreases n
  {
    if n > 0 {
      LoadedLast(table, directory, listing, n - 1, k);
      var prev, f := Loaded(table, directory, listing, n - 1), listing[n - 1];
      var zone := table[k].1;
      LoadStepSpec(table, directory, prev, f, k);
      if GoesTo(table, f, k) {
        assert LastGoingTo(table, directory, listing, n, k, JoinPath(directory, f)) by {
          assert listing[n - 1] == f;
        }
      } else if zone in prev {
        var path := prev[zone];
        assert LastGoingTo(table, directory, listing, n - 1, k, path);
        var j :| 0 <= j < n - 1 && GoesTo(table, listing[j], k) && path == JoinPath(directory, listing[j])
                 && forall i :: j < i < n - 1 ==> !GoesTo(table, listing[i], k);
        assert forall i :: j < i < n ==> !GoesTo(table, listing[i], k);
      }
    }
  }

  /** `path` is the path of one of the first `n` files that goes to zone
      `k`, and no later one of them does. */
  predicate LastGoingTo(table: seq<(string, string)>, directory: string, listing: seq<string>, n: nat, k: nat, path: string)
    requires n <= |listing|
  {
    exists j :: 0 <= j < n && GoesTo(table, listing[j], k) && path == JoinPath(directory, listing[j])
      && forall i :: j < i < n ==> !GoesTo(table, listing[i], k)
  }

  /** One file sets zone `k` exactly when it goes to it, and leaves it as
      it was otherwise. */
  lemma LoadStepSpec(table: seq<(string, string)>, directory: string, prev: map<string, string>, f: string, k: nat)
    requires DistinctZones(table) && k < |table|
    ensures var m, zone := LoadStep(table, directory, prev, f), table[k].1;
      (GoesTo(table, f, k) ==> zone in m && m[zone] == JoinPath(directory, f))
      && (!GoesTo(table, f, k) ==> (zone in m <==> zone in prev) && (zone in m ==> m[zone] == prev[zone]))
  {
    var p := FirstPattern(table, Lower(f), 0);
    if EndsWith(Lower(f), ".png") && p.Some? {
      assert (p.value == k) == (table[p.value].1 == table[k].1);
    }
  }

  /** Every key of the mapping is a zone of the table. */
  lemma {:induction false} LoadedKeys(table: seq<(string, string)>, directory: string, listing: seq<string>, n: nat)
    requires n <= |listing|
    ensures forall z :: z in Loaded(table, directory, listing, n) ==> exists i :: 0 <= i < |table| && table[i].1 == z
    decreases n
  {
    if n > 0 {
      LoadedKeys(table, directory, listing, n - 1);
    }
  }

  /** Unlike the anchored generator's discovery, a `.png` file fills one
      zone only, that of the first pattern its name holds, even when the
      name holds later patterns too. */
  lemma OneZonePerFile(table: seq<(string, string)>, directory: string, f: string, k: nat)
    requires DistinctZones(table)
    requires k < |table| && EndsWith(Lower(f), ".png") && Contains(Lower(f), table[k].0)
    ensures var m := Loaded(table, directory, [f], 1);
      |m| == 1 && forall i :: k < i < |table| ==> table[i].1 !in m
  {
    var p := FirstPattern(table, Lower(f), 0);
    assert p.Some? && p.value <= k;
    var m := Loaded(table, directory, [f], 1);
    assert Loaded(table, directory, [f], 0) == map[];
    assert m == map[table[p.value].1 := JoinPath(directory, f)];
    assert m.Keys == {table[p.value].1};
  }

  // ---------------------------------------------------------------------
  // fit_image_to_zone
  // ---------------------------------------------------------------------

  /** `fit_image_to_zone`: the resized size and the offset that centres it
      in the zone. */
  function FitImageToZone(imgW: Pos, imgH: Pos, zoneW: int, zoneH: int): (int, int, int, int)
    requires zoneH != 0
  {
    var aspect := imgW as real / imgH as real;
    var zoneAspect := zoneW as real / zoneH as real;
    var (newW, newH) :=
      if aspect > zoneAspect then (zoneW, Trunc(zoneW as real / aspect))
      else (Trunc(zoneH as real * aspect), zoneH);
    (newW, newH, (zoneW - newW) / 2, (zoneH - newH) / 2)
  }

  /** The zone fit is the shared contain fit followed by the centring
      offset, so the image lies centred inside the zone and fills it along
      one side. */
  lemma FitImageToZoneSpec(imgW: Pos, imgH: Pos, zoneW: int, zoneH: int)
    requires zoneW >= 0 && zoneH > 0
    ensures var (w, h, dx, dy) := FitImageToZone(imgW, imgH, zoneW, zoneH);
      (w, h) == ImageUtils.FitToBox(imgW, imgH, zoneW, zoneH, true)
      && (dx, dy) == ImageUtils.CenteringOffset(w, h, zoneW, zoneH)
      && 0 <= dx && dx + w <= zoneW && 0 <= dy && dy + h <= zoneH
      && (w == zoneW || h == zoneH)
  {
    var (w, h, dx, dy) := FitImageToZone(imgW, imgH, zoneW, zoneH);
    ImageUtils.FitToBoxFits(imgW, imgH, zoneW, zoneH);
    ImageUtils.CenteringOffsetSpec(w, h, zoneW, zoneH);
  }

  // ---------------------------------------------------------------------
  // render_storyboard: what happens before drawing
  // ---------------------------------------------------------------------

  /** How `render_storyboard` starts: `ValueError` for a layout that is not
      a preset, `ValueError` from `hex_to_rgb` for a background it cannot
      parse, or the layout's zones and the background colour. */
  datatype RenderStart<P> = UnknownLayout(name: string) | BadColour(color: string) | Ready(zones: P, background: (int, int, int))

  function StartRender<P>(presets: map<string, P>, layoutName: string, background: Option<string>): RenderStart<P> {
    if layoutName !in presets then UnknownLayout(layoutName)
    else
      var color := background.GetOr("#FFFFFF");
      var rgb := GenerateCollage.HexToRgb(color);
      if rgb.None? then BadColour(color) else Ready(presets[layoutName], rgb.value)
  }

  lemma ParseFF()
    ensures GenerateCollage.ParseHex("FF") == Some(255)
  {
    var ff := "FF";
    assert GenerateCollage.TrimSpace(ff) == ff;
    assert ff[..1] == "F" && "F"[..0] == [];
    assert GenerateCollage.HexNumber(ff) == 255;
  }

  lemma WhitePairs()
    ensures GenerateCollage.DropLeading("#FFFFFF", '#') == "FFFFFF"
    ensures var s := "FFFFFF";
      GenerateCollage.Pair(s, 0) == "FF" && GenerateCollage.Pair(s, 2) == "FF" && GenerateCollage.Pair(s, 4) == "FF"
  {
    var s := "FFFFFF";
    assert "#FFFFFF"[1..] == s;
    assert s[0..2] == "FF" && s[2..4] == "FF" && s[4..] == "FF";
  }

  /** The default background `#FFFFFF` is white. */
  lemma DefaultWhite()
    ensures GenerateCollage.HexToRgb("#FFFFFF") == Some((255, 255, 255))
  {
    ParseFF();
    WhitePairs();
  }

  /** The layout must be a preset, which is checked before anything else;
      the background defaults to white. */
  lemma StartRenderSpec<P>(presets: map<string, P>, layoutName: string, background: Option<string>)
    ensures var r := StartRender(presets, layoutName, background);
      (r.UnknownLayout? <==> layoutName !in presets)
      && (r.Ready? ==> r.zones == presets[layoutName])
      && (layoutName in presets && background.None? ==> r == Ready(presets[layoutName], (255, 255, 255)))
  {
    DefaultWhite();
  }
}
