/** The fixed-template placement engine (engine/layout_physics.py): a
    catalogue of five templates of named slot rectangles, the fit of an image
    into a slot with the 15% inflation for density, and `compute_layout`,
    which turns an assignment of files to slots into placements.

    Whether a file exists, the pixel size of an opened image and the
    inflation `int(x * 1.15)` come in as functions. */
module LayoutPhysics {
  import opened Common
  import ImageUtils

  datatype SlotRect = SlotRect(x: int, y: int, w: int, h: int)

  /** A slot is either a bare `(x, y, w, h)` tuple or a dict with a `rect`
      and optional `rotation`, `layer` and `label`. */
  datatype SlotData =
    | Legacy(rect: SlotRect)
    | Spec(rect: SlotRect, rotation: Option<int>, layer: Option<int>, labelText: Option<string>)

  datatype Template = Template(name: string, slots: seq<(string, SlotData)>)

  function R(x: int, y: int, w: int, h: int): SlotData { Legacy(SlotRect(x, y, w, h)) }

  function S(x: int, y: int, w: int, h: int, rotation: int, layer: int, labelText: string): SlotData {
    Spec(SlotRect(x, y, w, h), Some(rotation), Some(layer), Some(labelText))
  }

  /** `TEMPLATES`, in dictionary order. */
  const Catalogue: seq<Template> := [
    Template("asymmetric_left", [
      ("hero_slot", R(200, 200, 2000, 3108)),
      ("secondary_1", R(2400, 200, 1100, 1400)),
      ("secondary_2", R(3600, 200, 1100, 1400)),
      ("filler_1", R(2400, 1800, 700, 700)),
      ("filler_2", R(3200, 1800, 700, 700)),
      ("filler_3", R(4000, 1800, 700, 700)),
      ("tiny_1", R(2400, 2600, 500, 500)),
      ("tiny_2", R(3000, 2600, 500, 500)),
      ("tiny_3", R(3600, 2600, 500, 500))]),
    Template("waterfall_right", [
      ("hero_slot", R(2761, 200, 2000, 3108)),
      ("secondary_1", R(200, 200, 1000, 1000)),
      ("secondary_2", R(1300, 500, 1000, 1000)),
      ("filler_1", R(200, 1300, 900, 900)),
      ("filler_2", R(1200, 1600, 900, 900)),
      ("tiny_1", R(200, 2400, 600, 600)),
      ("tiny_2", R(900, 2600, 600, 600)),
      ("tiny_3", R(1600, 2400, 600, 600))]),
    Template("editorial_grid", [
      ("hero_slot", R(200, 200, 2200, 1450)),
      ("secondary_1", R(2500, 200, 2200, 1450)),
      ("secondary_2", R(200, 1850, 1000, 1450)),
      ("filler_1", R(1300, 1850, 1000, 1450)),
      ("filler_2", R(2500, 1850, 1000, 1450)),
      ("tiny_1", R(3600, 1850, 1100, 700)),
      ("tiny_2", R(3600, 2650, 1100, 650))]),
    Template("final_spec", [
      ("hero_left", S(150, 1052, 1600, 1403, 0, 5, "Tea Towel")),
      ("anchor_right", S(2800, 400, 2000, 2800, 5, 4, "Theale Bag")),
      ("print_back", S(1900, 450, 1300, 1600, 0, 2, "Mounted Print")),
      ("magnet", S(1650, 500, 600, 600, -10, 8, "Fridge Magnet")),
      ("keyring", S(2250, 600, 400, 500, 10, 9, "Keyring")),
      ("notebook", S(1500, 1900, 1200, 1100, -5, 6, "A5 Notebook Stitched")),
      ("card", S(2500, 2000, 900, 1200, 0, 7, "Greetings Card")),
      ("mugs_cluster", S(1800, 2600, 1700, 800, 0, 10, "Durham Mug"))]),
    Template("reference_1_match", [
      ("hero_left", S(100, 700, 1700, 2000, 0, 5, "")),
      ("anchor_right", S(3300, 700, 1700, 2400, 0, 4, "")),
      ("print_back", S(3300, 300, 900, 1100, 0, 2, "")),
      ("magnet", S(1900, 800, 550, 550, 0, 8, "")),
      ("keyring", S(2500, 850, 380, 450, 0, 9, "")),
      ("notebook", S(1600, 1700, 1200, 1100, 0, 6, "")),
      ("card", S(2820, 1810, 960, 880, 0, 7, "")),
      ("mugs_cluster", S(1850, 700, 1700, 2000, 0, 10, ""))])
  ]

  /** `key in TEMPLATES`. */
  predicate HasTemplate(key: string) {
    exists t :: 0 <= t < |Catalogue| && Catalogue[t].name == key
  }

  /** The slots of the catalogue template named `key`. */
  function SlotsOf(key: string): seq<(string, SlotData)>
    requires HasTemplate(key)
  {
    var t :| 0 <= t < |Catalogue| && Catalogue[t].name == key;
    Catalogue[t].slots
  }

  /** `slots[name]`, or nothing when `name not in slots`. */
  function SlotLookup(slots: seq<(string, SlotData)>, name: string): (r: Option<SlotData>)
    ensures r.Some? <==> exists k :: 0 <= k < |slots| && slots[k].0 == name
    ensures r.Some? ==> exists k :: 0 <= k < |slots| && slots[k] == (name, r.value)
  {
    if slots == [] then None
    else if slots[0].0 == name then Some(slots[0].1)
    else
      var r := SlotLookup(slots[1..], name);
      assert forall k :: 0 < k < |slots| ==> slots[k] == slots[1..][k - 1];
      r
  }

  /** `ai_layout.get("template_name", "asymmetric_left")`, replaced by
      "asymmetric_left" when it names no template. */
  function TemplateKey(templateName: Option<string>): string {
    if templateName.Some? && HasTemplate(templateName.value) then templateName.value else "asymmetric_left"
  }

  /** The chosen template is the requested one exactly when that one exists,
      and is always one of the catalogue. */
  lemma TemplateKeySpec(templateName: Option<string>)
    ensures HasTemplate(TemplateKey(templateName))
    ensures TemplateKey(templateName) == (if templateName.Some? && HasTemplate(templateName.value)
                                          then templateName.value else "asymmetric_left")
  {
    assert Catalogue[0].name == "asymmetric_left";
  }

  /** Every slot of every template has a positive size, so the fit never
      divides by zero. */
  predicate SlotsReady(slots: seq<(string, SlotData)>) {
    forall k :: 0 <= k < |slots| ==> slots[k].1.rect.w > 0 && slots[k].1.rect.h > 0
  }

  lemma CatalogueReady(key: string)
    requires HasTemplate(key)
    ensures SlotsReady(SlotsOf(key))
  {
    var t :| 0 <= t < |Catalogue| && Catalogue[t].name == key && SlotsOf(key) == Catalogue[t].slots;
    forall i | 0 <= i < |Catalogue| ensures SlotsReady(Catalogue[i].slots) {
      TemplateReady(i);
    }
  }

  /** The slots of each template, one template at a time. */
  lemma TemplateReady(i: nat)
    requires i < |Catalogue|
    ensures SlotsReady(Catalogue[i].slots)
  {
    if i == 0 {
      AsymmetricLeftReady();
    } else if i == 1 {
      WaterfallRightReady();
    } else if i == 2 {
      EditorialGridReady();
    } else if i == 3 {
      FinalSpecReady();
    } else {
      ReferenceMatchReady();
    }
  }

  lemma AsymmetricLeftReady()
    ensures SlotsReady(Catalogue[0].slots)
  {
  }

  lemma WaterfallRightReady()
    ensures SlotsReady(Catalogue[1].slots)
  {
  }

  lemma EditorialGridReady()
    ensures SlotsReady(Catalogue[2].slots)
  {
  }

  lemma FinalSpecReady()
    ensures SlotsReady(Catalogue[3].slots)
  {
  }

  lemma ReferenceMatchReady()
    ensures SlotsReady(Catalogue[4].slots)
  {
  }

  // ---------------------------------------------------------------------------
  // Fitting an image into a slot

  datatype Fit = Fit(w: int, h: int, dx: int, dy: int)

  /** `fit_image_to_slot`: the binding side takes the inflated slot size and
      the other follows the image's aspect ratio; the offsets centre the
      result in the slot. */
  function FitToSlot(imgW: Pos, imgH: Pos, slotW: int, slotH: int, inflate: int -> int): Fit
    requires slotH != 0
  {
    var (w, h) := ImageUtils.Contain(imgW, imgH, slotW, slotH, inflate(slotW), inflate(slotH));
    Fit(w, h, (slotW - w) / 2, (slotH - h) / 2)
  }

  /** The image binds on its width exactly when it is relatively wider than
      the slot; on that side it takes the inflated slot size. */
  lemma FitToSlotSides(imgW: Pos, imgH: Pos, slotW: int, slotH: int, inflate: int -> int)
    requires slotH > 0
    ensures var f := FitToSlot(imgW, imgH, slotW, slotH, inflate);
      (ImageUtils.WiderThan(imgW, imgH, slotW, slotH) ==> f.w == inflate(slotW))
      && (!ImageUtils.WiderThan(imgW, imgH, slotW, slotH) ==> f.h == inflate(slotH))
  {
    ImageUtils.AspectCompare(imgW, imgH, slotW, slotH);
  }

  /** The fitted image is centred in the slot, the odd pixel going after it. */
  lemma FitToSlotCentred(imgW: Pos, imgH: Pos, slotW: int, slotH: int, inflate: int -> int)
    requires slotH != 0
    ensures var f := FitToSlot(imgW, imgH, slotW, slotH, inflate);
      2 * f.dx <= slotW - f.w <= 2 * f.dx + 1 && 2 * f.dy <= slotH - f.h <= 2 * f.dy + 1
  {
  }

  /** Without inflation the slot fit is the contain fit of `fit_image_to_box`. */
  lemma FitToSlotIsContain(imgW: Pos, imgH: Pos, slotW: int, slotH: int, inflate: int -> int)
    requires slotH != 0
    requires inflate(slotW) == slotW && inflate(slotH) == slotH
    ensures var f := FitToSlot(imgW, imgH, slotW, slotH, inflate);
      (f.w, f.h) == ImageUtils.FitToBox(imgW, imgH, slotW, slotH, true)
  {
  }

  // ---------------------------------------------------------------------------
  // compute_layout

  /** One entry of `assignments`: a slot name and the file given for it
      (`None` for null). */
  datatype Assignment = Assignment(slotName: string, file: Option<string>)

  datatype Placement = Placement(file: string, x: int, y: int, width: int, height: int,
                                 rotation: int, depthLayer: int, slotName: string, labelText: string)

  /** Rotation, layer and label of a slot: a tuple slot has 0, 5 and "",
      a dict slot its own values with the same defaults. */
  function Decoration(d: SlotData): (int, int, string) {
    match d
    case Legacy(_) => (0, 5, "")
    case Spec(_, rot, layer, labelText) => (rot.GetOr(0), layer.GetOr(5), labelText.GetOr(""))
  }

  function ProductPath(file: string): string { JoinPath("products", file) }

  /** An assignment is placed when its file is truthy, its slot is in the
      template and the file exists under `products/`. */
  predicate Accepted(slots: seq<(string, SlotData)>, fileExists: string -> bool, a: Assignment) {
    a.file.Some? && a.file.value != "" && SlotLookup(slots, a.slotName).Some? && fileExists(ProductPath(a.file.value))
  }

  /** The placement of an accepted assignment: the image, opened or taken as
      1000 x 1000 when it cannot be, fitted into the slot and moved by the
      slot's origin. */
  function PlaceOne(slots: seq<(string, SlotData)>, fileExists: string -> bool, imageSize: string -> Option<(Pos, Pos)>,
                    inflate: int -> int, a: Assignment): Placement
    requires SlotsReady(slots) && Accepted(slots, fileExists, a)
  {
    var file := a.file.value;
    var data := SlotLookup(slots, a.slotName).value;
    var r := data.rect;
    var (rot, layer, labelText) := Decoration(data);
    var (iw, ih) := imageSize(ProductPath(file)).GetOr((1000, 1000));
    var f := FitToSlot(iw, ih, r.w, r.h, inflate);
    Placement(file, r.x + f.dx, r.y + f.dy, f.w, f.h, rot, layer, a.slotName, labelText)
  }

  /** The placements after the first `|asg|` assignments. */
  function Placements(slots: seq<(string, SlotData)>, fileExists: string -> bool, imageSize: string -> Option<(Pos, Pos)>,
                      inflate: int -> int, asg: seq<Assignment>): seq<Placement>
    requires SlotsReady(slots)
  {
    if asg == [] then []
    else
      var a := asg[|asg| - 1];
      Placements(slots, fileExists, imageSize, inflate, asg[..|asg| - 1])
      + if Accepted(slots, fileExists, a) then [PlaceOne(slots, fileExists, imageSize, inflate, a)] else []
  }

  /** The assignments that are placed, in order. */
  function AcceptedOf(slots: seq<(string, SlotData)>, fileExists: string -> bool, asg: seq<Assignment>): (r: seq<Assignment>)
    ensures forall k :: 0 <= k < |r| ==> Accepted(slots, fileExists, r[k])
  {
    if asg == [] then []
    else
      var a := asg[|asg| - 1];
      AcceptedOf(slots, fileExists, asg[..|asg| - 1]) + if Accepted(slots, fileExists, a) then [a] else []
  }

  /** An assignment is placed exactly when it is in the list and passes the
      three skips. */
  lemma {:induction false} AcceptedOfMembers(slots: seq<(string, SlotData)>, fileExists: string -> bool, asg: seq<Assignment>, a: Assignment)
    ensures a in AcceptedOf(slots, fileExists, asg) <==> a in asg && Accepted(slots, fileExists, a)
    decreases |asg|
  {
    if asg != [] {
      assert asg == asg[..|asg| - 1] + [asg[|asg| - 1]];
      AcceptedOfMembers(slots, fileExists, asg[..|asg| - 1], a);
    }
  }

  /** One placement per accepted assignment, in assignment order. */
  lemma {:induction false} PlacementsFollowAssignments(slots: seq<(string, SlotData)>, fileExists: string -> bool,
                                                      imageSize: string -> Option<(Pos, Pos)>, inflate: int -> int,
                                                      asg: seq<Assignment>)
    requires SlotsReady(slots)
    ensures var ps, acc := Placements(slots, fileExists, imageSize, inflate, asg), AcceptedOf(slots, fileExists, asg);
      |ps| == |acc| && forall k :: 0 <= k < |ps| ==> ps[k] == PlaceOne(slots, fileExists, imageSize, inflate, acc[k])
    decreases |asg|
  {
    if asg != [] {
      PlacementsFollowAssignments(slots, fileExists, imageSize, inflate, asg[..|asg| - 1]);
    }
  }

  /** A placement carries its assignment's file and slot name and the slot's
      decoration, and its image is centred in the slot rectangle. */
  lemma PlaceOneSpec(slots: seq<(string, SlotData)>, fileExists: string -> bool, imageSize: string -> Option<(Pos, Pos)>,
                     inflate: int -> int, a: Assignment)
    requires SlotsReady(slots) && Accepted(slots, fileExists, a)
    ensures var p := PlaceOne(slots, fileExists, imageSize, inflate, a);
      var d := SlotLookup(slots, a.slotName).value;
      p.file == a.file.value && p.slotName == a.slotName
      && (p.rotation, p.depthLayer, p.labelText) == Decoration(d)
      && 2 * (p.x - d.rect.x) <= d.rect.w - p.width <= 2 * (p.x - d.rect.x) + 1
      && 2 * (p.y - d.rect.y) <= d.rect.h - p.height <= 2 * (p.y - d.rect.y) + 1
  {
    var data := SlotLookup(slots, a.slotName).value;
    var k :| 0 <= k < |slots| && slots[k] == (a.slotName, data);
    var (iw, ih) := imageSize(ProductPath(a.file.value)).GetOr((1000, 1000));
    FitToSlotCentred(iw, ih, data.rect.w, data.rect.h, inflate);
  }

  /** `compute_layout`. The assignment dict is given as its entries in
      order (empty when the key is absent). */
  method ComputeLayout(templateName: Option<string>, assignments: seq<Assignment>, fileExists: string -> bool,
                       imageSize: string -> Option<(Pos, Pos)>, inflate: int -> int)
    returns (placements: seq<Placement>)
    ensures HasTemplate(TemplateKey(templateName)) && SlotsReady(SlotsOf(TemplateKey(templateName)))
    ensures placements == Placements(SlotsOf(TemplateKey(templateName)), fileExists, imageSize, inflate, assignments)
  {
    TemplateKeySpec(templateName);
    var key := TemplateKey(templateName);
    CatalogueReady(key);
    placements := PlaceAll(SlotsOf(key), assignments, fileExists, imageSize, inflate);
  }

  /** The loop of `compute_layout` over the slots of the chosen template. */
  method PlaceAll(slots: seq<(string, SlotData)>, assignments: seq<Assignment>, fileExists: string -> bool,
                  imageSize: string -> Option<(Pos, Pos)>, inflate: int -> int)
    returns (placements: seq<Placement>)
    requires SlotsReady(slots)
    ensures placements == Placements(slots, fileExists, imageSize, inflate, assignments)
  {
    placements := [];
    var i := 0;
    while i < |assignments|
      invariant 0 <= i <= |assignments|
      invariant placements == Placements(slots, fileExists, imageSize, inflate, assignments[..i])
    {
      assert assignments[..i + 1][..i] == assignments[..i];
      var piece := PlaceAssignment(slots, assignments[i], fileExists, imageSize, inflate);
      placements := placements + piece;
      i := i + 1;
    }
    assert assignments[..|assignments|] == assignments;
  }

  /** One pass of the loop: the skips, then the fit and the placement. */
  method PlaceAssignment(slots: seq<(string, SlotData)>, a: Assignment, fileExists: string -> bool,
                         imageSize: string -> Option<(Pos, Pos)>, inflate: int -> int)
    returns (piece: seq<Placement>)
    requires SlotsReady(slots)
    ensures piece == if Accepted(slots, fileExists, a) then [PlaceOne(slots, fileExists, imageSize, inflate, a)] else []
  {
    piece := [];
    if a.file.None? || a.file.value == "" {
      return;
    }
    var file := a.file.value;
    var data := SlotLookup(slots, a.slotName);
    if data.None? {
      return;
    }
    var path := ProductPath(file);
    if !fileExists(path) {
      return;
    }
    var r := data.value.rect;
    var (rot, layer, labelText) := Decoration(data.value);
    var (iw, ih) := imageSize(path).GetOr((1000, 1000));
    var f := FitToSlot(iw, ih, r.w, r.h, inflate);
    piece := [Placement(file, r.x + f.dx, r.y + f.dy, f.w, f.h, rot, layer, a.slotName, labelText)];
  }
}
