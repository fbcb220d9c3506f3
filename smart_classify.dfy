/** The rule-based parts of the product classifier
    (engine/smart_classify.py): manual overrides from a manifest or a file
    name tag, the file-name hint, the aspect-ratio rules applied to the image
    model's label, and the directory scan that builds an inventory of unique
    role keys.

    The image model is an input: for each path, whether the image opens, its
    pixel size, and the label index and confidence the model reports. The
    directory listing (already in processing order), its existence and the
    parsed manifest are inputs too. */
module SmartClassify {
  import opened Common

  // ---------------------------------------------------------------------------
  // Labels

  const Labels: seq<string> := ["tea towel", "tote bag", "mug", "keyring", "magnet", "notebook", "frame", "greeting card"]

  /** `label.split()` for each label. */
  const LabelWords: seq<seq<string>> := [["tea", "towel"], ["tote", "bag"], ["mug"], ["keyring"], ["magnet"],
                                         ["notebook"], ["frame"], ["greeting", "card"]]

  const AmbiguousLabels: seq<string> := ["tea towel", "magnet", "greeting card", "frame"]

  type LabelIndex = i: int | 0 <= i < 8

  function JoinWords(ws: seq<string>): string {
    if ws == [] then "" else if |ws| == 1 then ws[0] else ws[0] + " " + JoinWords(ws[1..])
  }

  /** The word lists are the labels split at their spaces. */
  lemma LabelWordsSplit()
    ensures |LabelWords| == |Labels|
    ensures forall i :: 0 <= i < |Labels| ==> JoinWords(LabelWords[i]) == Labels[i]
    ensures forall i, j :: 0 <= i < |LabelWords| && 0 <= j < |LabelWords[i]| ==> ' ' !in LabelWords[i][j] && LabelWords[i][j] != ""
  {
  }

  // ---------------------------------------------------------------------------
  // get_manual_role

  const ManualRoleMap: seq<(string, string)> := [
    ("hero", "hero_left"),
    ("large", "support_large"),
    ("medium", "support_medium_large"),
    ("small", "accessory_small"),
    ("tiny", "accessory_tiny"),
    ("support", "support_medium"),
    ("cluster", "cluster_bottom")]

  /** `dict.get(key)` on a dict listed as (key, value) entries. */
  function MapGet(m: seq<(string, string)>, key: string): (r: Option<string>)
    ensures r.Some? <==> exists i :: 0 <= i < |m| && m[i].0 == key
    ensures r.Some? ==> exists i :: 0 <= i < |m| && m[i] == (key, r.value)
    decreases |m|
  {
    if m == [] then None
    else if m[0].0 == key then Some(m[0].1)
    else
      var r := MapGet(m[1..], key);
      assert forall i :: 0 < i < |m| ==> m[i] == m[1..][i - 1];
      r
  }

  /** The file name tags `_key` or `-key`. */
  predicate TagHit(base: string, key: string) {
    Contains(base, "_" + key) || Contains(base, "-" + key)
  }

  /** The first entry of the role map, from index `k` on, whose tag the
      lower-cased file name carries. */
  function TagMatch(base: string, k: nat): Option<nat>
    decreases |ManualRoleMap| - k
  {
    if k >= |ManualRoleMap| then None
    else if TagHit(base, ManualRoleMap[k].0) then Some(k)
    else TagMatch(base, k + 1)
  }

  /** `get_manual_role`: the role and its reason, or `None` for
      `(None, None)`. The manifest is the parsed `manifest.json`. */
  function GetManualRole(filename: string, manifest: map<string, string>): Option<(string, string)> {
    if filename in manifest then
      var userRole := Lower(manifest[filename]);
      Some((MapGet(ManualRoleMap, userRole).GetOr(userRole), "Manifest says '" + userRole + "'"))
    else
      var base := Lower(filename);
      var t := TagMatch(base, 0);
      if t.Some? && t.value < |ManualRoleMap| then
        Some((ManualRoleMap[t.value].1, "Filename tag '" + ManualRoleMap[t.value].0 + "'"))
      else if Contains(base, "_hero") then Some(("hero_left", "Filename tag 'hero'"))
      else None
  }

  lemma {:induction false} TagMatchSpec(base: string, k: nat)
    ensures var t := TagMatch(base, k);
      (t.Some? ==> k <= t.value < |ManualRoleMap| && TagHit(base, ManualRoleMap[t.value].0)
                   && forall j :: k <= j < t.value ==> !TagHit(base, ManualRoleMap[j].0))
      && (t.None? <==> forall j :: k <= j < |ManualRoleMap| ==> !TagHit(base, ManualRoleMap[j].0))
    decreases |ManualRoleMap| - k
  {
    if k < |ManualRoleMap| && !TagHit(base, ManualRoleMap[k].0) {
      TagMatchSpec(base, k + 1);
    }
  }

  /** A manifest entry for the exact file name wins: its lower-cased value,
      translated by the role map when it is one of the map's keys. */
  lemma ManifestWins(filename: string, manifest: map<string, string>)
    requires filename in manifest
    ensures var u := Lower(manifest[filename]);
      GetManualRole(filename, manifest).Some?
      && GetManualRole(filename, manifest).value.0
         == if exists i :: 0 <= i < |ManualRoleMap| && ManualRoleMap[i].0 == u then MapGet(ManualRoleMap, u).value else u
  {
  }

  /** Without a manifest entry, the first key of the role map, in map order,
      whose tag the lower-cased name carries decides the role; no tag gives
      no role. The separate `_hero` test after the loop can never decide:
      a name containing `_hero` carries the tag of the first key. */
  lemma TagRule(filename: string, manifest: map<string, string>)
    requires filename !in manifest
    ensures var base, r := Lower(filename), GetManualRole(filename, manifest);
      (r.None? <==> forall j :: 0 <= j < |ManualRoleMap| ==> !TagHit(base, ManualRoleMap[j].0))
      && (r.Some? ==> exists i :: 0 <= i < |ManualRoleMap| && TagHit(base, ManualRoleMap[i].0)
                         && (forall j :: 0 <= j < i ==> !TagHit(base, ManualRoleMap[j].0))
                         && r.value.0 == ManualRoleMap[i].1)
    ensures Contains(Lower(filename), "_hero") ==> GetManualRole(filename, manifest) == Some(("hero_left", "Filename tag 'hero'"))
  {
    var base := Lower(filename);
    TagMatchSpec(base, 0);
    if Contains(base, "_hero") {
      assert "_" + ManualRoleMap[0].0 == "_hero";
      assert TagMatch(base, 0) == Some(0);
      assert "Filename tag '" + ManualRoleMap[0].0 + "'" == "Filename tag 'hero'";
    }
  }

  // ---------------------------------------------------------------------------
  // The file-name hint of classify_image

  predicate WordHit(base: string, word: string) {
    |word| > 2 && Contains(base, word)
  }

  predicate AnyWordHit(base: string, words: seq<string>) {
    exists j :: 0 <= j < |words| && WordHit(base, words[j])
  }

  /** The first label, from index `i` on, one of whose words longer than two
      characters occurs in the name; -1 for none. */
  function HintFrom(base: string, i: nat): int
    decreases |Labels| - i
  {
    if i >= |Labels| then -1
    else if AnyWordHit(base, LabelWords[i]) then i
    else HintFrom(base, i + 1)
  }

  lemma {:induction false} HintFromSpec(base: string, i: nat)
    ensures var h := HintFrom(base, i);
      (h == -1 <==> forall k :: i <= k < |Labels| ==> !AnyWordHit(base, LabelWords[k]))
      && (h != -1 ==> i <= h < |Labels| && AnyWordHit(base, LabelWords[h])
                      && forall k :: i <= k < h ==> !AnyWordHit(base, LabelWords[k]))
    decreases |Labels| - i
  {
    if i < |Labels| && !AnyWordHit(base, LabelWords[i]) {
      HintFromSpec(base, i + 1);
    }
  }

  /** The hint loop of `classify_image` over the labels and their words. */
  method FilenameHint(base: string) returns (hintIdx: int)
    ensures hintIdx == HintFrom(base, 0)
  {
    hintIdx := -1;
    var i := 0;
    while i < |Labels|
      invariant 0 <= i <= |Labels|
      invariant HintFrom(base, 0) == HintFrom(base, i)
      decreases |Labels| - i
    {
      var words := LabelWords[i];
      var j := 0;
      while j < |words|
        invariant 0 <= j <= |words|
        invariant forall m :: 0 <= m < j ==> !WordHit(base, words[m])
      {
        if |words[j]| > 2 && Contains(base, words[j]) {
          hintIdx := i;
          return;
        }
        j := j + 1;
      }
      i := i + 1;
    }
  }

  /** The canonical role for a label named by the file name. */
  function HintRole(name: string): Option<string> {
    if name == "tea towel" then Some("hero_left")
    else if name == "tote bag" then Some("hero_right")
    else if name == "frame" then Some("support_large")
    else if name == "greeting card" then Some("support_medium_large")
    else if name == "notebook" then Some("support_medium")
    else if name == "mug" then Some("cluster_bottom")
    else if name == "magnet" then Some("accessory_small")
    else if name == "keyring" then Some("accessory_tiny")
    else None
  }

  /** Every label has a canonical role, so a hint always decides. */
  lemma HintRoleTotal(i: LabelIndex)
    ensures HintRole(Labels[i]).Some? && HintRole(Labels[i]).value != ""
  {
  }

  // ---------------------------------------------------------------------------
  // The aspect rules of classify_image

  /** The rules for a flat, rectangular label, where the shape decides. */
  function AmbiguousRole(name: string, aspect: real): Option<string> {
    if aspect < 0.6 then Some("hero_left")
    else if 0.6 <= aspect < 0.85 then Some("hero_left")
    else if 0.9 <= aspect <= 1.1 then Some("accessory_small")
    else if 0.85 <= aspect < 0.9 then Some("support_medium_large")
    else if aspect > 1.2 then Some("support_large")
    else if name == "tea towel" then Some("hero_left")
    else if name == "frame" then Some("support_large")
    else if name == "greeting card" then Some("support_medium_large")
    else if name == "magnet" then Some("accessory_small")
    else None
  }

  /** The labels whose shape is distinctive. */
  function DistinctRole(name: string): Option<string> {
    if name == "tote bag" then Some("hero_right")
    else if name == "mug" then Some("cluster_bottom")
    else if name == "keyring" then Some("accessory_tiny")
    else if name == "notebook" then Some("support_medium")
    else None
  }

  /** The role for the model's label and the image's aspect ratio. */
  function AspectRole(name: string, aspect: real): string {
    var r := if name in AmbiguousLabels then AmbiguousRole(name, aspect) else None;
    var r2 := if r.None? then DistinctRole(name) else r;
    r2.GetOr("support_medium")
  }

  /** For a flat label the aspect bands decide: below 0.85 the hero, up to
      0.9 the medium-large support, up to 1.1 the small accessory, above 1.2
      the large support; between 1.1 and 1.2 the label's own role. */
  lemma AspectBands(i: LabelIndex, aspect: real)
    requires Labels[i] in AmbiguousLabels
    ensures var r := AspectRole(Labels[i], aspect);
      (aspect < 0.85 ==> r == "hero_left")
      && (0.85 <= aspect < 0.9 ==> r == "support_medium_large")
      && (0.9 <= aspect <= 1.1 ==> r == "accessory_small")
      && (aspect > 1.2 ==> r == "support_large")
      && (1.1 < aspect <= 1.2 ==> Some(r) == HintRole(Labels[i]))
  {
  }

  /** Any other label gets its own canonical role whatever the shape, so the
      final `support_medium` fallback is never needed for a label of the
      list. */
  lemma DistinctLabels(i: LabelIndex, aspect: real)
    requires Labels[i] !in AmbiguousLabels
    ensures Some(AspectRole(Labels[i], aspect)) == HintRole(Labels[i])
  {
  }

  /** What the imaging library and the image model report for one path. */
  datatype Observation = Observation(image: Option<(nat, nat)>, aiLabel: LabelIndex, confidence: real)

  /** `classify_image`'s role and confidence (the explanation text is not
      modelled). An image that does not open, or has zero height once past
      the hint, is the error result `(None, 0.0)`. */
  datatype Classification = Classification(role: Option<string>, confidence: real)

  function ClassifyImage(base: string, obs: Observation): Classification {
    if obs.image.None? then Classification(None, 0.0)
    else
      var hint := HintFrom(base, 0);
      if 0 <= hint < |Labels| && HintRole(Labels[hint]).Some? then Classification(HintRole(Labels[hint]), 1.0)
      else if obs.image.value.1 == 0 then Classification(None, 0.0)
      else
        var aspect := obs.image.value.0 as real / obs.image.value.1 as real;
        Classification(Some(AspectRole(Labels[obs.aiLabel], aspect)), obs.confidence)
  }

  /** A name hint forces its label's role with full confidence; otherwise a
      readable image always gets a role; only errors give none. */
  lemma ClassifyImageSpec(base: string, obs: Observation)
    ensures var c := ClassifyImage(base, obs);
      (c.role.None? <==> obs.image.None? || (HintFrom(base, 0) == -1 && obs.image.value.1 == 0))
      && (c.role.None? ==> c.confidence == 0.0)
      && (obs.image.Some? && HintFrom(base, 0) != -1 ==>
            c.confidence == 1.0 && exists i :: 0 <= i < |Labels| && AnyWordHit(base, LabelWords[i]) && c.role == HintRole(Labels[i]))
      && (c.role.Some? ==> c.role.value != "")
  {
    HintFromSpec(base, 0);
    var hint := HintFrom(base, 0);
    if 0 <= hint < |Labels| {
      HintRoleTotal(hint);
    }
  }

  // ---------------------------------------------------------------------------
  // scan_directory

  /** `filename.lower().endswith(('.png', '.jpg', '.jpeg'))`. */
  predicate IsImageFile(f: string) {
    var l := Lower(f);
    EndsWith(l, ".png") || EndsWith(l, ".jpg") || EndsWith(l, ".jpeg")
  }

  /** The flexible mode's generalisation of a role. */
  function Generalize(role: string, flexible: bool): string {
    if !flexible then role
    else if Contains(role, "hero") then "hero"
    else if Contains(role, "cluster") then "cluster"
    else role
  }

  /** The role decided for a file: the manual one when it is truthy,
      otherwise the classifier's. */
  function RoleOf(filename: string, path: string, manifest: map<string, string>, observe: string -> Observation): Option<string> {
    var manual := GetManualRole(filename, manifest);
    if manual.Some? && manual.value.0 != "" then Some(manual.value.0)
    else ClassifyImage(Lower(filename), observe(path)).role
  }

  /** The candidate keys after `role`: `role_2`, `role_3`, ... */
  function Candidate(role: string, counter: nat): string {
    role + "_" + NatToString(counter)
  }

  /** The keys tried before `role_counter`: `role` and `role_2` up to
      `role_(counter - 1)`. */
  function Tried(role: string, counter: nat): set<string>
    decreases counter
  {
    if counter <= 2 then {role} else Tried(role, counter - 1) + {Candidate(role, counter - 1)}
  }

  lemma CandidateDistinct(role: string, a: nat, b: nat)
    requires a != b
    ensures Candidate(role, a) != Candidate(role, b)
    ensures Candidate(role, a) != role
  {
    var ca, cb := Candidate(role, a), Candidate(role, b);
    assert ca[|role| + 1..] == NatToString(a);
    assert cb[|role| + 1..] == NatToString(b);
    if ca == cb {
      NatToStringInjective(a, b);
    }
  }

  lemma {:induction false} CandidateFresh(role: string, counter: nat, c: nat)
    requires 2 <= counter <= c
    ensures Candidate(role, c) !in Tried(role, counter)
    decreases counter
  {
    CandidateDistinct(role, c, counter - 1);
    if counter > 2 {
      CandidateFresh(role, counter - 1, c);
    }
  }

  lemma {:induction false} TriedCard(role: string, counter: nat)
    requires counter >= 2
    ensures |Tried(role, counter)| == counter - 1
    decreases counter
  {
    if counter > 2 {
      TriedCard(role, counter - 1);
      CandidateFresh(role, counter - 1, counter - 1);
    }
  }

  /** At most `|keys|` keys can all be in use. */
  lemma TriedBound(keys: set<string>, role: string, counter: nat)
    requires counter >= 2 && Tried(role, counter) <= keys
    ensures counter - 1 <= |keys|
  {
    TriedCard(role, counter);
    SubsetCard(Tried(role, counter), keys);
  }

  /** The first unused candidate from `role_counter` on, when `role` and
      the candidates before `role_counter` are all used. */
  function NextFree(keys: set<string>, role: string, counter: nat): string
    requires counter >= 2 && Tried(role, counter) <= keys
    decreases |keys| + 2 - counter
  {
    TriedBound(keys, role, counter);
    var c := Candidate(role, counter);
    if c !in keys then c else NextFree(keys, role, counter + 1)
  }

  /** The key under which a file is stored: `role` itself when unused,
      otherwise the first unused of `role_2`, `role_3`, ... */
  function FreeKey(keys: set<string>, role: string): string {
    if role !in keys then role else NextFree(keys, role, 2)
  }

  lemma {:induction false} NextFreeSpec(keys: set<string>, role: string, counter: nat)
    requires counter >= 2 && Tried(role, counter) <= keys
    ensures NextFree(keys, role, counter) !in keys
    ensures exists j :: j >= counter && NextFree(keys, role, counter) == Candidate(role, j)
                        && forall i :: counter <= i < j ==> Candidate(role, i) in keys
    decreases |keys| + 2 - counter
  {
    TriedBound(keys, role, counter);
    var c := Candidate(role, counter);
    if c in keys {
      NextFreeSpec(keys, role, counter + 1);
      var j :| j >= counter + 1 && NextFree(keys, role, counter + 1) == Candidate(role, j)
               && forall i :: counter + 1 <= i < j ==> Candidate(role, i) in keys;
    }
  }

  /** The stored key is never one already in use, so no entry of the
      inventory is overwritten; it is the role when that is free, and
      otherwise the first free `role_j` with `j >= 2`. */
  lemma FreeKeySpec(keys: set<string>, role: string)
    ensures FreeKey(keys, role) !in keys
    ensures FreeKey(keys, role) == role <==> role !in keys
    ensures role in keys ==> exists j :: j >= 2 && FreeKey(keys, role) == Candidate(role, j)
                                         && forall i :: 2 <= i < j ==> Candidate(role, i) in keys
  {
    if role in keys {
      NextFreeSpec(keys, role, 2);
    }
  }

  /** The `while final_role in inventory` loop of `scan_directory`. */
  method FreshKey(keys: set<string>, role: string) returns (finalRole: string)
    ensures finalRole == FreeKey(keys, role)
  {
    finalRole := role;
    var counter := 2;
    while finalRole in keys
      invariant counter >= 2
      invariant finalRole == if counter == 2 then role else Candidate(role, counter - 1)
      invariant counter > 2 ==> Tried(role, counter - 1) <= keys
      invariant counter > 2 ==> FreeKey(keys, role) == NextFree(keys, role, counter - 1)
      decreases |keys| + 2 - counter
    {
      TriedBound(keys, role, counter);
      finalRole := Candidate(role, counter);
      counter := counter + 1;
    }
  }

  /** The keys of an inventory listed as (key, path) entries. */
  function KeysOf(inv: seq<(string, string)>): set<string> {
    set p | p in inv :: p.0
  }

  /** The file is scanned: an image file with a truthy role. */
  predicate Stored(directory: string, f: string, manifest: map<string, string>, observe: string -> Observation) {
    IsImageFile(f)
    && var r := RoleOf(f, JoinPath(directory, f), manifest, observe);
       r.Some? && r.value != ""
  }

  /** What one file contributes: its (generalised) role and its path, when
      it is stored. */
  function Entry(directory: string, f: string, manifest: map<string, string>, observe: string -> Observation,
                 flexible: bool): Option<(string, string)>
  {
    var path := JoinPath(directory, f);
    if Stored(directory, f, manifest, observe) then
      Some((Generalize(RoleOf(f, path, manifest, observe).value, flexible), path))
    else None
  }

  /** `inventory[final_role] = path`, with the free key for the role. */
  function Store(prev: seq<(string, string)>, e: Option<(string, string)>): seq<(string, string)> {
    if e.Some? then prev + [(FreeKey(KeysOf(prev), e.value.0), e.value.1)] else prev
  }

  /** The entry of every file of a scan. */
  function EntryOf(directory: string, manifest: map<string, string>, observe: string -> Observation,
                   flexible: bool): string -> Option<(string, string)>
  {
    f => Entry(directory, f, manifest, observe, flexible)
  }

  /** A file gives an entry exactly when it is stored; the entry holds its
      generalised role and its path. */
  lemma EntrySpec(directory: string, f: string, manifest: map<string, string>, observe: string -> Observation,
                  flexible: bool)
    ensures var e := EntryOf(directory, manifest, observe, flexible)(f);
      (e.Some? <==> Stored(directory, f, manifest, observe))
      && (e.Some? ==> e.value == (Generalize(RoleOf(f, JoinPath(directory, f), manifest, observe).value, flexible),
                                  JoinPath(directory, f)))
  {
  }

  /** The inventory after the first `n` files, each contributing `entry(f)`. */
  function Scanned(entry: string -> Option<(string, string)>, files: seq<string>, n: nat): seq<(string, string)>
    requires n <= |files|
  {
    if n == 0 then [] else Store(Scanned(entry, files, n - 1), entry(files[n - 1]))
  }

  /** One pass of the loop of `scan_directory`. */
  method ScanFile(directory: string, filename: string, manifest: map<string, string>, observe: string -> Observation,
                  flexible: bool, inventory: seq<(string, string)>, keys: set<string>)
    returns (inventory': seq<(string, string)>, keys': set<string>)
    requires keys == KeysOf(inventory)
    ensures inventory' == Store(inventory, Entry(directory, filename, manifest, observe, flexible))
    ensures keys' == KeysOf(inventory')
  {
    inventory', keys' := inventory, keys;
    if IsImageFile(filename) {
      var path := JoinPath(directory, filename);
      var role := RoleOf(filename, path, manifest, observe);
      if role.Some? && role.value != "" {
        var base := Generalize(role.value, flexible);
        var finalRole := FreshKey(keys, base);
        inventory' := inventory + [(finalRole, path)];
        keys' := keys + {finalRole};
      }
    }
  }

  /** `scan_directory`, with the listing in processing order (sorted, or
      shuffled in flexible mode) and the manifest already parsed (empty when
      missing or unreadable). */
  method ScanDirectory(directory: string, directoryExists: bool, files: seq<string>, manifest: map<string, string>,
                       observe: string -> Observation, flexible: bool)
    returns (inventory: seq<(string, string)>)
    ensures inventory == if directoryExists then Scanned(EntryOf(directory, manifest, observe, flexible), files, |files|) else []
  {
    inventory := [];
    if !directoryExists {
      return;
    }
    var entry := EntryOf(directory, manifest, observe, flexible);
    var keys: set<string> := {};
    for i := 0 to |files|
      invariant inventory == Scanned(entry, files, i)
      invariant keys == KeysOf(inventory)
    {
      assert entry(files[i]) == Entry(directory, files[i], manifest, observe, flexible);
      inventory, keys := ScanFile(directory, files[i], manifest, observe, flexible, inventory, keys);
    }
  }

  /** The keys of the inventory are unique, there are as many entries as
      files that give one, and each entry holds the path of such a file.
      With `EntrySpec`, these are the stored files; the key of each new entry
      is described by `FreeKeySpec`. */
  lemma ScannedSpec(entry: string -> Option<(string, string)>, files: seq<string>, n: nat)
    requires n <= |files|
    ensures var inv := Scanned(entry, files, n);
      NoDupKeys(inv)
      && |inv| == |Filter(files[..n], (f: string) => entry(f).Some?)|
      && forall k :: 0 <= k < |inv| ==> PathOfFile(entry, files, n, inv[k].1)
  {
    var inv := Scanned(entry, files, n);
    ScannedKeysUnique(entry, files, n);
    ScannedCount(entry, files, n);
    ScannedPaths(entry, files, n);
    assert NoDupKeys(inv);
  }

  /** Storing under a free key keeps the keys unique. */
  lemma StoreUnique(prev: seq<(string, string)>, e: Option<(string, string)>)
    requires NoDupKeys(prev)
    ensures NoDupKeys(Store(prev, e))
  {
    if e.Some? {
      var key := FreeKey(KeysOf(prev), e.value.0);
      FreeKeySpec(KeysOf(prev), e.value.0);
      var inv := prev + [(key, e.value.1)];
      forall a | 0 <= a < |prev| ensures inv[a].0 != key {
        assert prev[a] in prev;
      }
      assert forall k :: 0 <= k < |prev| ==> inv[k] == prev[k];
    }
  }

  /** Storing appends one entry, holding the entry's path, or nothing. */
  lemma StoreShape(prev: seq<(string, string)>, e: Option<(string, string)>)
    ensures |Store(prev, e)| == |prev| + (if e.Some? then 1 else 0)
    ensures forall k :: 0 <= k < |prev| ==> Store(prev, e)[k] == prev[k]
    ensures e.Some? ==> Store(prev, e)[|prev|].1 == e.value.1
  {
  }

  lemma {:induction false} ScannedKeysUnique(entry: string -> Option<(string, string)>, files: seq<string>, n: nat)
    requires n <= |files|
    ensures NoDupKeys(Scanned(entry, files, n))
    decreases n
  {
    if n > 0 {
      ScannedKeysUnique(entry, files, n - 1);
      StoreUnique(Scanned(entry, files, n - 1), entry(files[n - 1]));
    }
  }

  lemma {:induction false} ScannedCount(entry: string -> Option<(string, string)>, files: seq<string>, n: nat)
    requires n <= |files|
    ensures |Scanned(entry, files, n)| == |Filter(files[..n], (f: string) => entry(f).Some?)|
    decreases n
  {
    var p := (f: string) => entry(f).Some?;
    if n > 0 {
      ScannedCount(entry, files, n - 1);
      StoreShape(Scanned(entry, files, n - 1), entry(files[n - 1]));
      assert files[..n] == files[..n - 1] + [files[n - 1]];
      FilterAppend(files[..n - 1], [files[n - 1]], p);
    } else {
      assert files[..n] == [];
    }
  }

  lemma {:induction false} ScannedPaths(entry: string -> Option<(string, string)>, files: seq<string>, n: nat)
    requires n <= |files|
    ensures forall k :: 0 <= k < |Scanned(entry, files, n)| ==> PathOfFile(entry, files, n, Scanned(entry, files, n)[k].1)
    decreases n
  {
    if n > 0 {
      var prev := Scanned(entry, files, n - 1);
      var inv := Scanned(entry, files, n);
      ScannedPaths(entry, files, n - 1);
      StoreShape(prev, entry(files[n - 1]));
      forall k | 0 <= k < |inv|
        ensures PathOfFile(entry, files, n, inv[k].1)
      {
        if k < |prev| {
          assert PathOfFile(entry, files, n - 1, prev[k].1);
          var i :| 0 <= i < n - 1 && entry(files[i]).Some? && prev[k].1 == entry(files[i]).value.1;
          assert inv[k] == prev[k];
        } else {
          assert inv[k].1 == entry(files[n - 1]).value.1;
        }
      }
    }
  }

  /** `path` is the path of the entry of one of the first `n` files. */
  predicate PathOfFile(entry: string -> Option<(string, string)>, files: seq<string>, n: nat, path: string)
    requires n <= |files|
  {
    exists i :: 0 <= i < n && entry(files[i]).Some? && path == entry(files[i]).value.1
  }

  predicate NoDupKeys(inv: seq<(string, string)>) {
    forall a, b :: 0 <= a < b < |inv| ==> inv[a].0 != inv[b].0
  }

  /** In flexible mode every hero role becomes `hero` and every cluster role
      `cluster`; supports and accessories keep their full role. */
  lemma GeneralizeSpec(role: string)
    ensures Generalize(role, false) == role
    ensures Contains(role, "hero") ==> Generalize(role, true) == "hero"
    ensures !Contains(role, "hero") && Contains(role, "cluster") ==> Generalize(role, true) == "cluster"
    ensures !Contains(role, "hero") && !Contains(role, "cluster") ==> Generalize(role, true) == role
  {
  }
}
