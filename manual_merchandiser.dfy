/** The fixed merchandiser (engine/manual_merchandiser.py): eight known
    product files go to eight fixed slots of the "reference_1_match"
    template, each only when the inventory holds it. */
module ManualMerchandiser {
  import opened Common
  import LayoutPhysics

  /** The layout dict: its strategy name, template name and assignments,
      the last as (slot, file) entries in insertion order. */
  datatype ManualLayout = ManualLayout(strategyName: string, templateName: string, assignments: seq<(string, string)>)

  const StrategyName: string := "Manual Reference-1 Layout (Bypassing Gemini)"
  const TemplateName: string := "reference_1_match"

  /** The eight (slot, file) rules, in the order they are tried. */
  const Rules: seq<(string, string)> := [
    ("hero_left", "towel.png"),
    ("anchor_right", "bag.png"),
    ("print_back", "frame.png"),
    ("notebook", "notebook.png"),
    ("card", "greeting.png"),
    ("mugs_cluster", "mug.png"),
    ("magnet", "magnet.png"),
    ("keyring", "keyring.png")]

  function SlotsOf(ps: seq<(string, string)>): (r: seq<string>)
    ensures |r| == |ps| && forall k :: 0 <= k < |ps| ==> r[k] == ps[k].0
  {
    if ps == [] then [] else SlotsOf(ps[..|ps| - 1]) + [ps[|ps| - 1].0]
  }

  function FilesOf(ps: seq<(string, string)>): (r: seq<string>)
    ensures |r| == |ps| && forall k :: 0 <= k < |ps| ==> r[k] == ps[k].1
  {
    if ps == [] then [] else FilesOf(ps[..|ps| - 1]) + [ps[|ps| - 1].1]
  }

  /** The assignments after the first `n` rules, given the files of the
      inventory (the keys of `products`). */
  function Chosen(files: seq<string>, n: nat): seq<(string, string)>
    requires n <= |Rules|
  {
    if n == 0 then [] else Chosen(files, n - 1) + if Rules[n - 1].1 in files then [Rules[n - 1]] else []
  }

  /** `merchandize_manual`; `files` are the `file` fields of the items. */
  method MerchandizeManual(files: seq<string>) returns (layout: ManualLayout)
    ensures layout == ManualLayout(StrategyName, TemplateName, Chosen(files, |Rules|))
  {
    var assignments: seq<(string, string)> := [];
    if "towel.png" in files {
      assignments := assignments + [("hero_left", "towel.png")];
    }
    assert assignments == Chosen(files, 1);
    if "bag.png" in files {
      assignments := assignments + [("anchor_right", "bag.png")];
    }
    assert assignments == Chosen(files, 2);
    if "frame.png" in files {
      assignments := assignments + [("print_back", "frame.png")];
    }
    assert assignments == Chosen(files, 3);
    if "notebook.png" in files {
      assignments := assignments + [("notebook", "notebook.png")];
    }
    assert assignments == Chosen(files, 4);
    if "greeting.png" in files {
      assignments := assignments + [("card", "greeting.png")];
    }
    assert assignments == Chosen(files, 5);
    if "mug.png" in files {
      assignments := assignments + [("mugs_cluster", "mug.png")];
    }
    assert assignments == Chosen(files, 6);
    if "magnet.png" in files {
      assignments := assignments + [("magnet", "magnet.png")];
    }
    assert assignments == Chosen(files, 7);
    if "keyring.png" in files {
      assignments := assignments + [("keyring", "keyring.png")];
    }
    layout := ManualLayout(StrategyName, TemplateName, assignments);
  }

  /** An entry is assigned exactly when it is one of the first `n` rules and
      its file is in the inventory; every other file is ignored. */
  lemma {:induction false} ChosenMembers(files: seq<string>, n: nat, p: (string, string))
    requires n <= |Rules|
    ensures p in Chosen(files, n) <==> p in Rules[..n] && p.1 in files
    decreases n
  {
    if n > 0 {
      ChosenMembers(files, n - 1, p);
      assert Rules[..n] == Rules[..n - 1] + [Rules[n - 1]];
    }
  }

  /** Each rule's slot receives its file exactly when the file is present. */
  lemma RuleApplied(files: seq<string>, k: nat)
    requires k < |Rules|
    ensures Rules[k] in Chosen(files, |Rules|) <==> Rules[k].1 in files
  {
    ChosenMembers(files, |Rules|, Rules[k]);
    assert Rules[..|Rules|] == Rules;
  }

  /** The slots and the files of the rules are all different. */
  lemma RulesDistinct()
    ensures NoDup(SlotsOf(Rules)) && NoDup(FilesOf(Rules))
  {
    SlotsDistinct();
    FilesDistinct();
  }

  lemma SlotsDistinct()
    ensures NoDup(SlotsOf(Rules))
  {
  }

  lemma FilesDistinct()
    ensures NoDup(FilesOf(Rules))
  {
  }

  /** The assignments are a subsequence of the rules, so no slot and no file
      occurs twice. */
  lemma {:induction false} ChosenInjective(files: seq<string>, n: nat)
    requires n <= |Rules|
    ensures NoDup(SlotsOf(Chosen(files, n))) && NoDup(FilesOf(Chosen(files, n)))
    decreases n
  {
    if n > 0 {
      ChosenInjective(files, n - 1);
      var prev := Chosen(files, n - 1);
      var x := Rules[n - 1];
      if x.1 in files {
        forall q | q in prev ensures q.0 != x.0 && q.1 != x.1 {
          EarlierRuleDiffers(files, n - 1, q);
        }
        NoDupSnoc(prev, x);
        assert Chosen(files, n) == prev + [x];
      } else {
        assert Chosen(files, n) == prev + [];
        assert prev + [] == prev;
      }
    }
  }

  /** An entry assigned before rule `n` differs from rule `n` in slot and in
      file. */
  lemma EarlierRuleDiffers(files: seq<string>, n: nat, q: (string, string))
    requires n < |Rules| && q in Chosen(files, n)
    ensures q.0 != Rules[n].0 && q.1 != Rules[n].1
  {
    ChosenMembers(files, n, q);
    var k :| 0 <= k < n && Rules[..n][k] == q;
    RulesDiffer(k, n);
  }

  lemma RulesDiffer(k: nat, j: nat)
    requires k < j < |Rules|
    ensures Rules[k].0 != Rules[j].0 && Rules[k].1 != Rules[j].1
  {
    RulesDistinct();
    assert SlotsOf(Rules)[k] != SlotsOf(Rules)[j];
    assert FilesOf(Rules)[k] != FilesOf(Rules)[j];
  }

  lemma NoDupSnoc(prev: seq<(string, string)>, x: (string, string))
    requires NoDup(SlotsOf(prev)) && NoDup(FilesOf(prev))
    requires forall q :: q in prev ==> q.0 != x.0 && q.1 != x.1
    ensures NoDup(SlotsOf(prev + [x])) && NoDup(FilesOf(prev + [x]))
  {
    var here := prev + [x];
    assert here[..|here| - 1] == prev;
    forall k | 0 <= k < |prev| ensures SlotsOf(here)[k] != x.0 && FilesOf(here)[k] != x.1 {
      assert prev[k] in prev;
    }
  }

  /** The fixed files that are in the inventory. */
  function Present(files: seq<string>): set<string> {
    set k | 0 <= k < |Rules| && Rules[k].1 in files :: Rules[k].1
  }

  /** The count printed: one assignment per fixed file present. */
  lemma AssignedCount(files: seq<string>)
    ensures |Chosen(files, |Rules|)| == |Present(files)|
  {
    var c := Chosen(files, |Rules|);
    ChosenInjective(files, |Rules|);
    ElementsCard(FilesOf(c));
    forall f ensures f in Elements(FilesOf(c)) <==> f in Present(files) {
      if f in Elements(FilesOf(c)) {
        ChosenFilePresent(files, f);
      }
      if f in Present(files) {
        PresentFileChosen(files, f);
      }
    }
    assert Elements(FilesOf(c)) == Present(files);
  }

  lemma ChosenFilePresent(files: seq<string>, f: string)
    requires f in Elements(FilesOf(Chosen(files, |Rules|)))
    ensures f in Present(files)
  {
    var c := Chosen(files, |Rules|);
    assert Rules[..|Rules|] == Rules;
    var k :| 0 <= k < |c| && FilesOf(c)[k] == f;
    ChosenMembers(files, |Rules|, c[k]);
    var j :| 0 <= j < |Rules| && Rules[j] == c[k];
  }

  lemma PresentFileChosen(files: seq<string>, f: string)
    requires f in Present(files)
    ensures f in Elements(FilesOf(Chosen(files, |Rules|)))
  {
    var c := Chosen(files, |Rules|);
    assert Rules[..|Rules|] == Rules;
    var j :| 0 <= j < |Rules| && Rules[j].1 in files && Rules[j].1 == f;
    ChosenMembers(files, |Rules|, Rules[j]);
    var k :| 0 <= k < |c| && c[k] == Rules[j];
    assert FilesOf(c)[k] == f;
  }

  /** Every assigned slot is a slot of "reference_1_match", so
      `compute_layout` places an assignment exactly when its file exists. */
  lemma AssignedSlotsExist(files: seq<string>, fileExists: string -> bool, p: (string, string))
    requires p in Chosen(files, |Rules|)
    ensures LayoutPhysics.HasTemplate(TemplateName)
    ensures var slots := LayoutPhysics.SlotsOf(TemplateName);
      LayoutPhysics.SlotLookup(slots, p.0).Some?
      && (LayoutPhysics.Accepted(slots, fileExists, LayoutPhysics.Assignment(p.0, Some(p.1)))
          <==> fileExists(LayoutPhysics.ProductPath(p.1)))
  {
    ChosenMembers(files, |Rules|, p);
    assert Rules[..|Rules|] == Rules;
    var k :| 0 <= k < |Rules| && Rules[k] == p;
    ReferenceTemplate();
    RuleSlotExists(k);
    RuleFileNamed(k);
    AcceptedWhenPresent(LayoutPhysics.SlotsOf(TemplateName), fileExists, p.0, p.1);
  }

  lemma RuleFileNamed(k: nat)
    requires k < |Rules|
    ensures Rules[k].1 != ""
  {
  }

  /** An assignment of a named file to a slot the template has is accepted
      exactly when the file exists. */
  lemma AcceptedWhenPresent(slots: seq<(string, LayoutPhysics.SlotData)>, fileExists: string -> bool, slot: string, file: string)
    requires LayoutPhysics.SlotLookup(slots, slot).Some? && file != ""
    ensures LayoutPhysics.Accepted(slots, fileExists, LayoutPhysics.Assignment(slot, Some(file)))
            <==> fileExists(LayoutPhysics.ProductPath(file))
  {
  }

  lemma ReferenceTemplate()
    ensures LayoutPhysics.HasTemplate(TemplateName)
    ensures LayoutPhysics.SlotsOf(TemplateName) == LayoutPhysics.Catalogue[4].slots
  {
    assert LayoutPhysics.Catalogue[4].name == TemplateName;
  }

  lemma RuleSlotExists(k: nat)
    requires k < |Rules|
    ensures LayoutPhysics.SlotLookup(LayoutPhysics.Catalogue[4].slots, Rules[k].0).Some?
  {
    var slots := LayoutPhysics.Catalogue[4].slots;
    var j := [0, 1, 2, 5, 6, 7, 3, 4][k];
    assert slots[j].0 == Rules[k].0;
  }
}
