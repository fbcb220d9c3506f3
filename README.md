# dynamic-storyboard-image, modelled in Dafny

This project models the layout core of `dynamic-storyboard-image`, a
generator of A3 product storyboards. A set of product photographs is
classified into roles (hero, support, accessory), assigned to the
containers of a layout, and drawn onto a canvas. The model covers the
parts of the program that decide *where* things go and *which* product
goes where:

- `Solver` — the recursive layout-tree solver (`engine/layout_solver.py`):
  splits, grids and slots turned into absolute containers.
- `Validator` — the two validators of `engine/layout_validator.py`: tree
  validation (missing, unknown and duplicated ids, hero width, heroes in
  grids) and container validation (size constraints by role).
- `LayoutTree`, `Boxes`, `Common`, `Sorting` — shared data: the layout tree,
  the dict-shaped container with legacy and generated keys, Python's
  `int()`, substring search, ASCII `lower()`, `str.replace`, a stable sort.
- `Templates` — the five procedural archetypes of `engine/templates.py`, the
  legacy best-fit matcher and the catalogue of valid templates.
- `Designer`, `RemixAssembly` — mirror, shuffle and mix variants and the
  remix counting and naming of `engine/layout_designer.py`.
- `LayoutGenerator` — the safe area, the three dynamic layouts and the
  preferred-template selection of `engine/layout_generator.py`.
- `LayoutBrain` — the fallback strategy, the size table and the orientation
  rule of `engine/layout_brain.py`.
- `SmartClassify` — manual overrides, filename hints, the aspect heuristic
  and the duplicate-role rules of `engine/smart_classify.py`.
- `ImageUtils`, `LayoutPhysics` — the contain-fit and centring geometry and
  the fixed-template placement engine.
- `SmartMerchandiser`, `ManualMerchandiser`, `PvilAnalyzer` — the
  rank-based and the fixed role assignment and the measurement-to-priority
  table.
- `GenerateCollage` — `hex_to_rgb`, the container-bounds resolver, the
  product matcher, filename discovery and the aspect rules of
  `get_smart_role` in `generate_collage.py`.
- `GenerateFromJson` — the preset merge, the product-to-zone mapping, the
  zone fit and the layout lookup of `generate_from_json.py` (its
  `hex_to_rgb` is the same code and is modelled once, in `GenerateCollage`).

Where the source works by mutation (the solver appending to a list, the
designer writing a catalogue of files, the scanner filling a dictionary)
the model is a method with loops, proved against a prefix-recursive
specification function; the properties the program promises are lemmas
about that function. Pure decision code is modelled as functions.

Floating-point numbers are modelled as exact reals and Python's `int()` as
truncation toward zero. Python's `//` and `%` agree with Dafny's for the
positive divisors the source uses, whatever the sign of the dividend (the
centring offsets `(slot - size) // 2` are negative once the 15% inflation
makes an image larger than its slot). Image files, the CLIP model, the
console, the clock and randomness are inputs: a folder listing is a
sequence of names, an image is its pixel size (or `None` when it cannot be
opened), a random choice is an index or a permutation passed in.

## Model

| member | source | states |
|---|---|---|
| Solver.LayoutSolver.constructor | engine/layout_solver.py:4-13 | canvas 4961 x 3508 with margin 177 by default; the safe area is the canvas inset by the margin on every side |
| Solver.LayoutSolver.Solve | engine/layout_solver.py:15-22 | the containers are the tree's emission over the safe area, the diagnostics its notes |
| Solver.LayoutSolver.ProcessNode | engine/layout_solver.py:24-34 | appends exactly the node's emission to the list; "empty" and unknown types append nothing |
| Solver.LayoutSolver.ProcessSplit | engine/layout_solver.py:36-57 | appends the first child's emission over the first part, then the second child's over the second part |
| Solver.LayoutSolver.ProcessGrid | engine/layout_solver.py:59-81 | appends one container per grid item, in item order |
| Solver.LayoutSolver.ProcessItems | engine/layout_solver.py:70-81 | the item loop appends the grid emission of all items |
| Solver.LayoutSolver.ProcessSlot | engine/layout_solver.py:83-109 | appends the slot's single container, or nothing for a missing or empty id; the size checks only add notes |
| Solver.SplitTiling | engine/layout_solver.py:41-54 | the two parts and the gap tile the divided side exactly, the first part has `int((len - gap) * ratio)`, the other side is unchanged; any non-horizontal direction splits vertically |
| Solver.SplitPartsNonNegative | engine/layout_solver.py:43-51 | with a ratio in [0, 1] and a gap no larger than the side, neither part is negative |
| Solver.EmitIds | engine/layout_solver.py:24-109 | the ids the solver emits are exactly the truthy slot ids of the tree, in depth-first order |
| Solver.GridEmitIds | engine/layout_solver.py:70-81 | a grid emits the truthy item ids in list order |
| Solver.GridCellsUniform | engine/layout_solver.py:67-79 | every cell of a grid has the same truncated width and height and rotation 0 |
| Solver.GridPlacement | engine/layout_solver.py:70-79 | item `i` sits in row `i // cols`, column `i % cols` |
| Solver.GridCellInside | engine/layout_solver.py:65-79 | with a non-negative gap and room for the gaps, every cell lies inside the grid's area |
| Solver.PlaceOnAxis | engine/layout_solver.py:74-79 | along one axis, a cell that with its gaps tiles the axis starts at or after the area and its truncated end stays inside it |
| Solver.StrideTiles | engine/layout_solver.py:67-68 | the cells and the gaps between them fill the axis exactly |
| Solver.Silent | engine/layout_solver.py:25-87 | "empty", unknown types, the empty object, an empty grid and an id-less slot emit nothing |
| Solver.SlotCoversArea | engine/layout_solver.py:100-109 | a slot with an id emits one container equal to its area with the node's rotation, default 0 |
| Solver.DefaultSplitExample | engine/layout_solver.py:36-47 | on the default canvas a default split gives the first slot 2278 of the 4607 safe-area pixels |
| LayoutTree.SolverReadyPositiveGrids | engine/layout_solver.py:56-57 | a tree the solver can walk (both children of every split present, positive grid columns) also has positive grid columns in the validator's sense, where children may be missing |
| LayoutTree.TruthyIds | engine/layout_solver.py:84-87 | keeps only non-empty ids, each taken from the list, never more than the list |
| Boxes.Or | engine/layout_designer.py:132-135 | Python `a or b` on looked-up numbers: `a` when present and non-zero, otherwise `b` |
| Boxes.NormalizeSpec | engine/templates.py:315-334 | legacy keys are kept, each generated key takes the legacy value exactly when it exists, and normalising twice changes nothing |
| Validator.LayoutValidator.constructor | engine/layout_validator.py:6-19 | canvas 4961 x 3508 by default |
| Validator.ConstraintRow | engine/layout_validator.py:222-236 | the constraint chosen for an id is a row of the size table |
| Validator.MinWidthPriority | engine/layout_validator.py:11-17 | minimum width by priority: hero 1400 (and only heroes get 1400), support with "large" 700, other support 500, accessory 250, anything else 400 |
| Validator.HeroKeys | engine/layout_validator.py:126 | an inventory key is a hero key exactly when it contains "hero", ignoring case |
| Validator.LayoutValidator.ValidateLayoutTree | engine/layout_validator.py:21-63 | ZeroDivisionError exactly when the share computation meets a zero divisor (a split on a canvas of width 0, a grid with items and 0 columns or a floored row count of 0); otherwise the errors are the tree's missing-id, unknown-id, count, hero-width and hero-in-grid errors, valid exactly when there are none, warnings always empty |
| Validator.PositiveGridsDivisionSafe | engine/layout_validator.py:175-212 | positive column counts and a non-zero canvas width rule out every ZeroDivisionError of the share computation |
| Validator.GridRowsPositive | engine/layout_validator.py:210 | for a positive column count the floored row count `(n + columns - 1) // columns` is the ceiling of `n / columns` |
| Validator.ZeroDivisionExamples | engine/layout_validator.py:175-218 | 0 columns raises, 2 items in -2 columns raise (0 rows), a split on a width-0 canvas raises, and 1 item in -1 columns runs with width share -1 |
| Common.FloorDivBounds | engine/layout_validator.py:210 | Python's `//` rounds down for either sign of the divisor: the remainder has the divisor's sign and is smaller in size |
| Validator.LayoutValidator.CheckHeroWidths | engine/layout_validator.py:48-55 | one error per inventory hero with a share below 30% of the canvas width |
| Validator.LayoutValidator.CheckHeroSlots | engine/layout_validator.py:121-138 | one error per (grid, hero) pair where the grid lists the hero |
| Validator.LayoutValidator.CheckGridHeroes | engine/layout_validator.py:134-136 | for one grid, one error per hero the grid lists, in hero order |
| Validator.LayoutValidator.ValidateContainers | engine/layout_validator.py:65-99 | errors for widths below the role minimum and for uncovered inventory ids, warnings for containers under 400 pixels; valid exactly when there is no error |
| Validator.HeroWidthErrorsAre | engine/layout_validator.py:48-55 | a width error names an inventory hero that has a share, with that share times 100, below 30 |
| Validator.GridHeroErrorsIff | engine/layout_validator.py:133-136 | a grid yields an error for a hero exactly when it lists that hero |
| Validator.HeroInGridReported | engine/layout_validator.py:121-154 | a hero-in-grid error is reported exactly for an inventory hero that a grid reachable through splits lists |
| Validator.NarrowHeroIsPlaced | engine/layout_validator.py:48-55 | only heroes that the tree places are checked for width; absent heroes draw no width error |
| Validator.TreeValidIff | engine/layout_validator.py:26-63 | with distinct inventory ids, the tree is valid exactly when its slots are a permutation of the inventory, every placed hero has at least 30% of the width and no hero is in a grid |
| Validator.InventoryErrorsEmpty | engine/layout_validator.py:29-42 | with distinct inventory ids, the three inventory checks pass exactly when the slot list is a permutation of the ids |
| Validator.SlotsMatchInventory | engine/layout_validator.py:29-42 | no missing ids, no unknown ids and equal counts together amount to a permutation |
| Validator.DuplicateIsCountMismatch | engine/layout_validator.py:40-42 | a duplicated slot id with matching id sets is reported as a count mismatch only; each validation rule reports on its own |
| Validator.PercentagesDomain | engine/layout_validator.py:156-220 | the ids with a share are exactly the truthy slot ids and grid items |
| Validator.ShareShrinks | engine/layout_validator.py:180-201 | with a ratio in [0, 1] and a non-negative gap, each child's share is no more than its parent's |
| Validator.ShareDivides | engine/layout_validator.py:209-212 | a grid cell's share is no more than the grid's |
| Validator.PercentagesBounded | engine/layout_validator.py:156-220 | with positive column counts, ratios in [0, 1] and non-negative gaps, nesting never grows a share: no slot gets more of the canvas than the node it sits in |
| Validator.HalfSplitHeroExample | engine/layout_validator.py:175-190 | a hero in the first half of a default split on the default canvas passes the 30% check |
| Validator.WidthErrorsEmpty | engine/layout_validator.py:74-90 | no width error exactly when every container meets its role's minimum |
| Validator.ContainersValidIff | engine/layout_validator.py:65-99 | containers are valid exactly when every width meets its minimum and every inventory id has a container |
| Validator.ExtraContainerHarmless | engine/layout_validator.py:92-96 | an extra container that meets its minimum never makes a passing check fail: extras and duplicates are not reported |
| Templates.BandTiles | engine/templates.py:214-218 | `n` equal parts and their `n - 1` gaps tile the length exactly |
| Templates.BuildCells | engine/templates.py:80-85 | lists `2 * rows` cells; cell `k` is in row `k / 2`, column `k % 2` |
| Templates.FillSizedGrid | engine/templates.py:87-119 | supports one per cell, then accessories two per cell (one in the last cell when the count is odd), stopping when the cells run out |
| Templates.PlaceAccessoriesIds | engine/templates.py:97-119 | with a cell for every pair and for a last single accessory, every remaining accessory is placed in order |
| Templates.SizedGridIds | engine/templates.py:66-121 | a grid with at least `len(supports) + ceil(len(accessories) / 2)` cells places every support, then every accessory, once each in order |
| Templates.EnoughCells | engine/templates.py:73-74 | `2 * ceil(slots / 2)` cells are enough for the slots needed |
| Templates.CellWithinColumns | engine/templates.py:76-85 | every cell of the two-column grid lies within the two columns and their gap |
| Templates.LayoutHeroLeftGridRight | engine/templates.py:46-121 | `None` exactly when there is not exactly one hero; otherwise the hero, then every support and accessory, each placed once in that order |
| Templates.LayoutHeroRightGridLeft | engine/templates.py:123-181 | the same for the mirrored archetype |
| Templates.HeroBesideGridIds | engine/templates.py:46-181 | both hero-beside-grid archetypes place the hero, every support and every accessory exactly once |
| Templates.HeroLeftGridClear | engine/templates.py:52-85 | every grid cell starts after the hero column and its gutter and ends inside the safe area |
| Templates.HeroRightGridClear | engine/templates.py:127-151 | the hero ends at the right edge of the safe area and every cell lies left of one gutter before it |
| Templates.ColumnWidths | engine/templates.py:53-76 | on a non-negative width the hero column, gutter and grid columns are all non-negative |
| Templates.RowBand | engine/templates.py:216-218 | every box of the bottom band has the band's top and height |
| Templates.LayoutHeroTopBandBottom | engine/templates.py:183-220 | `None` exactly when there is not one hero or its aspect (1.0 when unknown) is below 1.0; otherwise every item placed once, hero first |
| Templates.BandRow | engine/templates.py:216-218 | the band loop lays out the remaining items in one row |
| Templates.TopBandIds | engine/templates.py:204-218 | the hero comes first and every support and accessory appears once in the band after it |
| Templates.TopBandGeometry | engine/templates.py:200-218 | the band is one gap below the `int(0.6 h)` hero and reaches the bottom of the safe area |
| Templates.TopBandSpansWidth | engine/templates.py:213-218 | the band cells and their gaps span the safe width exactly |
| Templates.LayoutThreeColumnBalanced | engine/templates.py:222-250 | `None` exactly when there are not exactly two heroes; otherwise every item placed once |
| Templates.StackColumn | engine/templates.py:246-248 | the middle loop stacks the remaining items in one column |
| Templates.ThreeColumnIds | engine/templates.py:229-248 | the two heroes take the outer columns and every other item is stacked in the middle once |
| Templates.ThreeColumnsTile | engine/templates.py:230-248 | the three columns and two 80-pixel gaps span the safe width, and the stack with its gaps spans the height |
| Templates.QuadrantHead | engine/templates.py:271-279 | the first two or three items fill the top-left, top-right and bottom-left quadrants |
| Templates.PlaceHead | engine/templates.py:271-279 | the three appends build exactly the first quadrants of `QuadrantHead` |
| Templates.LayoutQuadrantSplit | engine/templates.py:252-301 | `None` exactly when heroes plus supports are fewer than 2 or more than 3; otherwise every item placed once |
| Templates.PlaceFourth | engine/templates.py:281-299 | the fourth quadrant: one extra fills it, several are clustered two to a row, and without extras it stays empty |
| Templates.ClusterGrid | engine/templates.py:296-299 | the cluster loop places the extras two to a row |
| Templates.FourthQuadrantIds | engine/templates.py:281-299 | every extra lands in the fourth quadrant, in order |
| Templates.QuadrantIds | engine/templates.py:266-301 | items 0 to 2 fill the first three quadrants and the rest the fourth, each once |
| Templates.QuadrantsCover | engine/templates.py:266-301 | the quadrant heads and the fourth quadrant together place all items in order |
| Templates.RunGenerator | engine/templates.py:304-310 | whichever archetype runs, a layout it returns places every item exactly once |
| Templates.Best | engine/templates.py:374-402 | the chosen item is an available item whose key contains the slot's role; there is none exactly when no item is eligible |
| Templates.BestIsFirstMaximum | engine/templates.py:377-402 | the chosen item scores at least as high as every eligible item and strictly higher than every eligible item before it |
| Templates.ExactIdWins | engine/templates.py:386-388 | with non-negative penalties and the match's own penalty under 20, the item whose key equals the slot's id wins |
| Templates.OtherScoresNonPositive | engine/templates.py:383-398 | without the id bonus a non-negative penalty leaves a score of at most 0 |
| Templates.BestCandidate | engine/templates.py:374-402 | the scan of the available items keeps the first best-scoring eligible item |
| Templates.Remove | engine/templates.py:409 | `list.remove`: one element shorter when present, nothing new, every other element kept |
| Templates.RemoveNoDup | engine/templates.py:409 | removing from a list without repetitions leaves no copy of the item |
| Templates.SortedMembers | engine/templates.py:358-363 | sorting the slots keeps exactly the same slots |
| Templates.MapInventoryToLegacy | engine/templates.py:336-413 | `None` exactly when the hero-slot count differs from the hero-key count; otherwise the best-fit assignment over the sorted slots |
| Templates.AssignOne | engine/templates.py:365-409 | one pass of the slot loop: the best eligible item, if any, fills a copy of the slot and leaves the pool, so the rest of the loop goes on from the assignment of the remaining slots |
| Templates.AssignedFromInventory | engine/templates.py:365-409 | at most one box per slot, each filled with an eligible inventory item |
| Templates.AssignedDistinct | engine/templates.py:404-409 | no item is mapped twice |
| Templates.GetValidTemplates | engine/templates.py:415-449 | the generated options in generator order, then the legacy ones, each with at least one container |
| Templates.OptionsNonEmpty | engine/templates.py:429-447 | every option has containers; generated ones are "dynamic", legacy ones "fixed" |
| Templates.DynamicNonEmpty | engine/templates.py:429-436 | an empty generator result is never offered |
| Templates.LegacyNonEmpty | engine/templates.py:440-447 | an empty legacy mapping is never offered |
| Templates.PartitionCovers | engine/templates.py:421-423 | supports share no key with heroes or accessories, and every key is in some group |
| Templates.HeroAccessoryTwice | engine/templates.py:421-423 | a key naming both roles, such as "hero_accessory", is passed as a hero and as an accessory |
| Designer.LayoutDesigner.constructor | engine/layout_designer.py:9-22 | the canvas size comes from the configuration's `canvas` section where it has one, else 4961 x 3508; the base layouts are the presets given |
| Designer.MirrorBoxSpec | engine/layout_designer.py:152-172 | mirroring keeps which keys are present, the vertical extent and the width; a readable new left edge reflects the old one (`new + old + w = canvas width`); a non-zero rotation is negated |
| Designer.MirrorInvolution | engine/layout_designer.py:152-172 | mirroring twice with the same canvas width restores a box whose horizontal keys agree and whose mirror can be read again |
| Designer.MirroredTwice | engine/layout_designer.py:152-172 | the same for a whole list of boxes |
| Designer.MirrorCrossesMidline | engine/layout_designer.py:152-172 | a box centred left of the midline is mirrored to one centred right of it |
| Designer.LayoutDesigner.MirrorVariant | engine/layout_designer.py:152-172 | returns a copy of the list with every box mirrored |
| Designer.CollideSymmetric | engine/layout_designer.py:143-147 | the collision test does not depend on which box comes first |
| Designer.CollideMeansClose | engine/layout_designer.py:143-147 | boxes more than 50 pixels apart along either axis do not collide; boxes at the same position do |
| Designer.LayoutDesigner.CheckCollisions | engine/layout_designer.py:127-150 | true exactly when some pair of boxes from the two groups collides |
| Designer.LeftHalf | engine/layout_designer.py:94-99 | the boxes of `a` centred left of the midline, in order |
| Designer.RightHalf | engine/layout_designer.py:101-106 | the boxes of `b` centred on or right of the midline, in order |
| Designer.LayoutDesigner.KeepLeft | engine/layout_designer.py:94-99 | the filter loop over `a` keeps exactly its left half, in order |
| Designer.LayoutDesigner.KeepRight | engine/layout_designer.py:101-106 | the filter loop over `b` keeps exactly its right half, in order |
| Designer.HalvesMembers | engine/layout_designer.py:94-106 | the left half holds exactly the list's boxes left of the midline, the right half exactly the others |
| Designer.MidlinePartition | engine/layout_designer.py:94-106 | each readable box is on exactly one side, so the halves of one list add up to the list |
| Designer.MixSound | engine/layout_designer.py:90-125 | a produced mix has at least five boxes, a non-empty left half from `a` and right half from `b` in their order, and no colliding pair across the halves |
| Designer.MixNoneIff | engine/layout_designer.py:108-122 | a mix is refused exactly when a pair collides, fewer than five boxes remain, or one half is empty |
| Designer.LayoutDesigner.MixVariant | engine/layout_designer.py:90-125 | returns the mix of the left half of `a` with the right half of `b`, or `None` by the three rules |
| Designer.ApplyReceives | engine/layout_designer.py:209-226 | writing a record back never changes id, role or size class, and a box with a key on every axis takes on a record of non-zero extents completely |
| Designer.FindRole | engine/layout_designer.py:181-183 | the position of the first group with the role, or the number of groups when there is none |
| Designer.Indexes | engine/layout_designer.py:180-183 | the indexes of the boxes with a role: increasing, below the count, and every such index present |
| Designer.GroupByRole | engine/layout_designer.py:179-183 | the grouping loop builds the groups of the role partition |
| Designer.GroupsWellFormed | engine/layout_designer.py:179-183 | every group's members are valid, increasing indexes |
| Designer.MemberOfGroup | engine/layout_designer.py:179-183 | the boxes of a group are exactly those whose role leads to it |
| Designer.CollectProps | engine/layout_designer.py:194-204 | one record per member, in member order |
| Designer.WriteProps | engine/layout_designer.py:210-226 | member `k` takes record `k` |
| Designer.ShuffleRole | engine/layout_designer.py:189-226 | one round of the group loop: the group's records are collected, reordered by the permutation and written back to its members |
| Designer.LayoutDesigner.ShuffleVariant | engine/layout_designer.py:174-230 | the shuffle of every group of two or more boxes by its permutation, or `None` when no group has two |
| Designer.ShuffleGroupsDone | engine/layout_designer.py:187-228 | each group of two or more boxes has its records reordered by its permutation; every other box is as it was |
| Designer.ShuffleWithinRole | engine/layout_designer.py:187-228 | boxes only take records from boxes of their own role |
| Designer.MemberWithinRole | engine/layout_designer.py:210-226 | a box of a shuffled group keeps its id and role and holds its own record or that of a box of its role |
| Designer.ShuffleNoneIff | engine/layout_designer.py:186-230 | no shuffle is produced exactly when no two boxes share a role |
| Designer.SharedRoleGroup | engine/layout_designer.py:186-188 | when no group has two members, no two boxes share a role |
| Designer.PermuteMultiset | engine/layout_designer.py:207 | `random.shuffle` only reorders: the same values, as many times each |
| Designer.ShuffleKeepsRecords | engine/layout_designer.py:194-226 | box `ms[k]` of a shuffled group takes record `ps[k]`, and `ps` holds the group's own records with their multiplicities |
| Designer.ShufflePermutesGroup | engine/layout_designer.py:194-226 | when every box of a group has all keys, reading the group back after the shuffle gives the same records with the same multiplicities |
| Designer.ShuffleNonEmpty | engine/layout_designer.py:67-70 | a produced shuffle holds every box, so `if shuffled:` never skips it |
| Designer.MixNonEmpty | engine/layout_designer.py:78-81 | a produced mix is never the empty list |
| Designer.ShuffleProduced | engine/layout_designer.py:67-70 | a shuffle is saved exactly when one is produced |
| Designer.MixProduced | engine/layout_designer.py:78-81 | a mix is saved exactly when one is produced |
| Designer.LayoutDesigner.GenerateRemixes | engine/layout_designer.py:49-88 | the templates saved, in order, and a count equal to their number |
| Designer.LayoutDesigner.SaveBaseRemixes | engine/layout_designer.py:57-70 | for each base in order its mirror, then its shuffle when produced; each box needs only a readable left edge and width, the two values the mirror computes with |
| Designer.LayoutDesigner.SaveBase | engine/layout_designer.py:58-70 | one base's mirror under `Remix_Mirror_<name>`, then its shuffle when produced, for any base whose boxes have a readable left edge and width |
| Designer.LayoutDesigner.SaveMixes | engine/layout_designer.py:74-86 | every base on the left, in order, mixed with the others |
| Designer.LayoutDesigner.SaveMixRow | engine/layout_designer.py:75-86 | one left base mixed with every base of another name, in order |
| Designer.LayoutDesigner.SaveMix | engine/layout_designer.py:76-86 | two bases are mixed only when their names differ, and saved under the shortened name when produced |
| Designer.RemixBounds | engine/layout_designer.py:49-88 | at least one template per base and at most `n (n + 1)` for `n` bases |
| Designer.RemixPerBase | engine/layout_designer.py:57-70 | every base's mirror is saved under `Remix_Mirror_<name>` and every produced shuffle under `Remix_Shuffle_<name>` |
| Designer.RemixMixes | engine/layout_designer.py:74-86 | the mixing loops save a template exactly for each ordered pair of differently named bases whose mix is produced |
| RemixAssembly.Names | engine/layout_designer.py:54 | the base names in dictionary order |
| RemixAssembly.PerBaseCount | engine/layout_designer.py:57-70 | the first loop saves one mirror per base plus one per produced shuffle |
| RemixAssembly.PerBaseMembers | engine/layout_designer.py:57-70 | every mirror and every produced shuffle is among the saved templates |
| RemixAssembly.MixRowLength | engine/layout_designer.py:76 | a base is never mixed with itself, so its row has fewer templates than there are bases |
| RemixAssembly.AssembleBounds | engine/layout_designer.py:49-88 | between `n` and `n (n + 1)` templates for `n` bases |
| RemixAssembly.MixRowMembers | engine/layout_designer.py:75-86 | a row's template is the saved mix of that base with some base |
| RemixAssembly.MixAllMembers | engine/layout_designer.py:74-86 | a template comes from the mixing loops exactly when it is the saved mix of some ordered pair |
| Common.Lower | engine/smart_classify.py:161 | `str.lower()` keeps the length and lowers each character on its own |
| Common.TruncBounds | engine/layout_solver.py:43 | `int()` of a float moves toward zero by less than one, and is non-negative exactly when the value is above -1 |
| Common.ReplaceAllSpec | generate_from_json.py:34 | `str.replace` leaves a text without the pattern unchanged and never lengthens it when the replacement is no longer than the pattern |
| Common.NatToStringInjective | engine/smart_classify.py:231 | different counters print differently, so `f"{role}_{counter}"` names are distinct |
| Common.Filter | engine/pvil_analyzer.py:11-12 | a list comprehension with a condition never yields more elements than the input has |
| Common.FilterMembers | engine/pvil_analyzer.py:11-12 | a list comprehension with a condition keeps exactly the elements that satisfy it |
| Designer.SwappableIff | engine/layout_designer.py:185-188 | the shuffle finds nothing to swap exactly when no two containers share a role |
| Designer.ShuffleUpToSpec | engine/layout_designer.py:187-228 | after the first `t` role groups, those groups hold their permuted spatial properties and every later group is untouched |
| Designer.WriteBackSpec | engine/layout_designer.py:210-226 | writing the permuted properties back sets each member of the group to its property and keeps every other container |
| LayoutGenerator.SafeAreaTiles | engine/layout_generator.py:7-25 | margin (150 by default) on every side, the header above and the footer below the safe area (0 when absent): margins, header, footer and safe area tile the canvas |
| LayoutGenerator.GenerateDynamicLayout | engine/layout_generator.py:40-77 | the containers are those the selection rule picks from the valid templates |
| LayoutGenerator.ChooseSpec | engine/layout_generator.py:52-77 | no options give `[]`; a preference contained in some option's name selects the first such option; otherwise the option at the injected random index |
| LayoutGenerator.ChooseEmpty | engine/layout_generator.py:52-54 | since every valid option has containers, the result is empty exactly when there is no option |
| LayoutGenerator.SpanFits | engine/layout_generator.py:139-143 | part `k` of `n` equal parts lies within the `n` parts |
| LayoutGenerator.SpanWhole | engine/layout_generator.py:223-224 | `n` parts of `len / n` make up `len` |
| LayoutGenerator.Stack | engine/layout_generator.py:120-124 | the stacking loop places item `k` at `y0 + k h` and ends with `current_y` below the last |
| LayoutGenerator.Grid | engine/layout_generator.py:139-147 | the grid loop places item `i` in row `i // cols`, column `i % cols` |
| LayoutGenerator.StackAt | engine/layout_generator.py:120-124 | the stack has one box per item; item `k` is at `y0 + k h` |
| LayoutGenerator.GridAt | engine/layout_generator.py:139-147 | the grid has one box per item, item `i` in its cell |
| LayoutGenerator.GridPosition | engine/layout_generator.py:133-141 | the row and column of item `i` are inside the grid of `ceil(n / cols)` rows |
| LayoutGenerator.GridColumnInside | engine/layout_generator.py:136-142 | the column of item `i` lies inside the row of `cols` cells |
| LayoutGenerator.GridRowInside | engine/layout_generator.py:137-143 | the row of item `i` lies inside the `ceil(n / cols)` rows |
| LayoutGenerator.LayoutMosaic | engine/layout_generator.py:214-231 | `[]` for no items, otherwise three columns of equal cells in `ceil(n / 3)` rows |
| LayoutGenerator.MosaicCellAt | engine/layout_generator.py:226-229 | one cell per item, in order; item `i` in row `i // 3`, column `i % 3` |
| LayoutGenerator.MosaicCellInside | engine/layout_generator.py:220-229 | every mosaic cell lies inside the safe area |
| LayoutGenerator.LayoutSingleHeroAsymmetric | engine/layout_generator.py:84-149 | the hero, then the right column; at least one hero is needed since `heroes[0]` is read unguarded |
| LayoutGenerator.PlaceRightColumn | engine/layout_generator.py:113-147 | supports stacked at two units each, then the accessory grid |
| LayoutGenerator.PlaceAccessories | engine/layout_generator.py:127-147 | the accessories in a one- or two-column grid below the supports, padded by 20 |
| LayoutGenerator.SingleHeroShape | engine/layout_generator.py:92-107 | the hero fills the left `int(0.58 w)` at full height and comes first; alone when nothing else, otherwise followed by one box per support and accessory |
| LayoutGenerator.RightColumnShape | engine/layout_generator.py:113-147 | support `k` starts `2 k` units down and is two units high; accessory `i` sits in row `i // cols`, column `i % cols` of the band below, padded by 20 |
| LayoutGenerator.SingleHeroHeights | engine/layout_generator.py:117-137 | supports take `2 s` of the `2 s + a` units, the accessory band the remaining `a`; without accessories the supports fill the height |
| LayoutGenerator.LayoutSplitWings | engine/layout_generator.py:151-212 | the two wings, then the centre column; at least two heroes are needed since `heroes[1]` is read unguarded |
| LayoutGenerator.PlaceCenter | engine/layout_generator.py:183-210 | supports one slot each, accessories together in a last slot |
| LayoutGenerator.SplitWingsFrame | engine/layout_generator.py:158-170 | the heroes are `int(0.28 w)` wide at full height, flush with the left and right edges; the centre takes the rest between two gaps |
| LayoutGenerator.WingBoxes | engine/layout_generator.py:163-167 | the left and right wing boxes, their ids, positions and sizes |
| LayoutGenerator.SplitWingsAccessorySlot | engine/layout_generator.py:196-210 | all accessories share the last slot: their rows start below the supports, stay inside the slot, and the slot ends at the bottom of the safe area |
| LayoutGenerator.CenterNonEmpty | engine/layout_generator.py:173-184 | a non-empty centre list has a support or an accessory |
| LayoutGenerator.CenterColumnIds | engine/layout_generator.py:169-212 | with something in the centre, the result is the two wings followed by the centre column |
| LayoutGenerator.WingSlotIds | engine/layout_generator.py:189-210 | the centre holds the supports, then the accessories, in list order |
| LayoutBrain.OrientationPixels | engine/layout_brain.py:25-29 | in pixel terms, an image wider than 6:5 is a landscape, one narrower than 4:5 a portrait, and anything between a square |
| LayoutBrain.ImageInfoConsistent | engine/layout_brain.py:21-32 | the aspect is always width over height and the orientation always the one the thresholds give for it, the 1000×1000 square fallback included; a readable image reports its own size |
| LayoutBrain.SizeMapping | engine/layout_brain.py:79-117 | the loop builds the size table that the size rule defines for the inventory ids |
| LayoutBrain.RuleOf | engine/layout_brain.py:81-117 | the loop body builds the size rule of one inventory id |
| LayoutBrain.SizeTableSpec | engine/layout_brain.py:79-117 | the table has exactly one entry per inventory id, and that entry is the size rule applied to the id |
| LayoutBrain.SizeRuleBands | engine/layout_brain.py:81-117 | the prefix decides, "hero" before "support" before "cluster": 30-40% xl for heroes, 15-20% large for a support whose whole id holds "large", otherwise 10-15% medium, 20-30% large for clusters, 8-12% small for the rest; every band lies within 8-40% |
| LayoutBrain.RoleBaseHero | engine/layout_brain.py:81-82 | the prefix is the lower-cased text before the first underscore, so an id whose first segment is "Hero", in any case, is sized as a hero |
| LayoutBrain.ContainsLowered | engine/layout_brain.py:81-82 | a lower-case pattern found in an id is also found in its lower-cased form |
| LayoutBrain.FallbackFirstHero | engine/layout_brain.py:342-355 | with an id containing "hero", the tree's slot holds the first such id in inventory order |
| LayoutBrain.FallbackNoHero | engine/layout_brain.py:363-370 | without any id containing "hero", the tree is one three-column grid, gap 60, of every id in inventory order |
| LayoutBrain.FallbackCoversInventory | engine/layout_brain.py:342-370 | every inventory id appears in the tree exactly as often as in the inventory, and the solver can walk the tree |
| LayoutBrain.FallbackInventoryValid | engine/layout_brain.py:342-370 | the fallback tree always passes the validator's inventory checks: no id missing, none unknown, none used twice |
| LayoutBrain.FallbackReady | engine/layout_brain.py:342-370 | the fallback tree has positive grid columns, so the validator meets no zero divisor in its grid |
| LayoutBrain.FallbackHeroInGrid | engine/layout_brain.py:346-353 | with two or more ids containing "hero", the second one sits in the grid and the validator reports it |
| LayoutBrain.FallbackTwoHeroesRejected | engine/layout_brain.py:346-348 | with two or more ids containing "hero", the extra heroes join the grid, so the validator reports a hero in a grid and rejects the tree |
| SmartClassify.LabelWordsSplit | engine/smart_classify.py:15-24 | the word lists the hint loop walks are the eight labels split at their spaces |
| SmartClassify.MapGet | engine/smart_classify.py:156 | `dict.get(key)` finds a value exactly when an entry has the key, and the value found belongs to such an entry |
| SmartClassify.HintFromSpec | engine/smart_classify.py:47-54 | the hint is the first label, in list order, one of whose words longer than two letters the lower-cased name holds, and -1 exactly when no label has such a word |
| SmartClassify.FilenameHint | engine/smart_classify.py:44-55 | the nested loop with its two `break`s returns that first label index |
| SmartClassify.HintRoleTotal | engine/smart_classify.py:57-72 | every label has a non-empty canonical role, so a name hint always decides the role |
| SmartClassify.AspectBands | engine/smart_classify.py:92-114 | for an ambiguous label: below 0.85 the hero, from 0.85 to 0.9 the medium-large support, from 0.9 to 1.1 the small accessory, above 1.2 the large support, and between 1.1 and 1.2 the label's own role |
| SmartClassify.DistinctLabels | engine/smart_classify.py:116-129 | any other label gets its own canonical role whatever the shape, so the `support_medium` fallback is never needed |
| SmartClassify.ClassifyImageSpec | engine/smart_classify.py:39-135 | no role (with confidence 0) exactly when the image cannot be opened or, with no hint, its aspect cannot be computed; a hint forces its label's role with confidence 1; every role given is non-empty |
| SmartClassify.TagMatchSpec | engine/smart_classify.py:162-164 | the tag search returns the first key of the role map, from a given index on, whose `_key` or `-key` the name holds, and nothing exactly when none does |
| SmartClassify.ManifestWins | engine/smart_classify.py:153-157 | a manifest entry for the exact file name wins: its lower-cased value, translated when it is a key of the role map |
| SmartClassify.TagRule | engine/smart_classify.py:159-170 | without a manifest entry, the first key in map order whose tag the lower-cased name holds decides, and no tag gives no role; a name holding `_hero` is given `hero_left`, which the first key already decides |
| SmartClassify.CandidateDistinct | engine/smart_classify.py:231 | different counters give different keys, none of them the bare role |
| SmartClassify.TriedBound | engine/smart_classify.py:230-232 | the counter cannot pass the number of keys already in use, so the loop ends |
| SmartClassify.NextFreeSpec | engine/smart_classify.py:230-232 | from a counter whose earlier candidates are all in use, the loop stops at the first free candidate |
| SmartClassify.FreeKeySpec | engine/smart_classify.py:227-235 | the stored key is never one already in use: the role itself when free, otherwise the first free `role_j` with `j >= 2` |
| SmartClassify.FreshKey | engine/smart_classify.py:228-232 | the `while` loop returns that key |
| SmartClassify.ScanDirectory | engine/smart_classify.py:174-241 | a missing folder gives an empty inventory; otherwise the inventory the per-file steps build over the listing |
| SmartClassify.EntrySpec | engine/smart_classify.py:206-223 | a file gives an entry exactly when it is an image file whose role was decided, and the entry is its (generalised) role and its joined path |
| SmartClassify.ScanFile | engine/smart_classify.py:206-233 | one pass of the loop appends the file's entry under a free key, or leaves the inventory as it was, and keeps the key set in step |
| SmartClassify.StoreUnique | engine/smart_classify.py:225-233 | storing an entry under the key the duplicate-role loop picks keeps the inventory's keys unique |
| SmartClassify.ScannedSpec | engine/smart_classify.py:205-235 | over any per-file entry, the keys are unique, there are as many entries as files that give one, and each entry holds the path of such a file |
| SmartClassify.GeneralizeSpec | engine/smart_classify.py:219-224 | in flexible mode a role containing "hero" becomes `hero`, otherwise one containing "cluster" becomes `cluster`, and any other role is kept whole; outside flexible mode nothing changes |
| ImageUtils.AspectCompare | engine/image_utils.py:36-39 | comparing the image's and the box's aspect ratios is comparing the cross products of their sides |
| ImageUtils.TruncQuotient | engine/image_utils.py:42-46 | `int()` of a non-negative quotient is whole-number division |
| ImageUtils.FitToBoxCases | engine/image_utils.py:39-46 | a relatively wider image takes the box width and `maxW * srcH / srcW` rows; any other takes the box height and `maxH * srcW / srcH` columns |
| ImageUtils.FitToBoxFits | engine/image_utils.py:35-48 | the contain fit lies inside the box and fills it along at least one side |
| ImageUtils.FitStretched | engine/image_utils.py:32-33 | without keeping the aspect, the result is the box itself |
| ImageUtils.FitToBoxExamples | engine/image_utils.py:25-30 | 800×600 into 400×600 gives 400×300, and 600×800 into 600×400 gives 300×400 |
| ImageUtils.CenteringOffsetSpec | engine/image_utils.py:51-72 | the offset splits the spare room evenly, the odd pixel going after the image; an image no larger than the container gets a non-negative offset and stays inside |
| ImageUtils.CenteringOffsetExample | engine/image_utils.py:62-64 | a 300×400 image in a 500×600 container is offset by (100, 100) |
| LayoutPhysics.FitToSlotSides | engine/layout_physics.py:123-133 | the image binds on its width exactly when it is relatively wider than the slot, and on that side it takes the inflated slot size |
| LayoutPhysics.FitToSlotCentred | engine/layout_physics.py:135-137 | the fitted image is centred in the slot, the odd pixel going after it |
| LayoutPhysics.FitToSlotIsContain | engine/layout_physics.py:118-137 | without inflation the slot fit is the contain fit of `fit_image_to_box` |
| LayoutPhysics.TemplateKeySpec | engine/layout_physics.py:143-148 | the chosen template is the requested one exactly when it exists, `asymmetric_left` otherwise, and always one of the catalogue |
| LayoutPhysics.SlotLookup | engine/layout_physics.py:156-162 | `slots[name]` is found exactly when a slot has that name, and what is found is that slot's data |
| LayoutPhysics.CatalogueReady | engine/layout_physics.py:12-109 | every slot of every template in the catalogue has a positive height, so the fit never divides by zero |
| LayoutPhysics.AcceptedOf | engine/layout_physics.py:154-159 | every assignment kept passes the three skips |
| LayoutPhysics.AcceptedOfMembers | engine/layout_physics.py:154-159 | an assignment is placed exactly when it is in the list and has a file name, a known slot and an existing file |
| LayoutPhysics.PlacementsFollowAssignments | engine/layout_physics.py:154-202 | one placement per accepted assignment, in assignment order, each carrying that assignment's file and slot name |
| LayoutPhysics.PlaceOneSpec | engine/layout_physics.py:161-202 | a placement carries its assignment's file and slot name and the slot's rotation, layer (5 by default) and label, and its image is centred in the slot rectangle |
| LayoutPhysics.ComputeLayout | engine/layout_physics.py:139-204 | the placements are those of the accepted assignments in the chosen template, whose slots are all usable |
| LayoutPhysics.PlaceAll | engine/layout_physics.py:154-202 | the loop builds the placement list the specification function defines |
| LayoutPhysics.PlaceAssignment | engine/layout_physics.py:155-202 | one pass gives one placement when the assignment passes the skips and none otherwise |
| PvilAnalyzer.AspectOfPixels | engine/pvil_analyzer.py:23-29 | in pixel terms, wider than 3:2 is horizontal, narrower than 67:100 vertical, anything else square |
| PvilAnalyzer.HeroCandidateSpec | engine/pvil_analyzer.py:52-56 | a hero candidate is exactly a product that is not small, not vertical and not complex |
| PvilAnalyzer.PrioritySpec | engine/pvil_analyzer.py:58-68 | priorities run from 1 to 5; 1 and 2 go exactly to hero candidates that are not small, and 5 exactly to small products |
| PvilAnalyzer.AnalyzeRanked | engine/pvil_analyzer.py:19-83 | every record's priority lies in 1-5 and is at most 2 exactly when the record is a hero candidate, and its area is positive |
| PvilAnalyzer.AnalyzeProducts | engine/pvil_analyzer.py:4-87 | the result is the records of the `.png` files, sorted by area from largest to smallest |
| PvilAnalyzer.AnalyzedMembers | engine/pvil_analyzer.py:11-83 | one record per `.png` file of the listing, each the analysis of its own file, and no record for anything else |
| PvilAnalyzer.AnalyzeProductsSpec | engine/pvil_analyzer.py:85-87 | the sorted result holds exactly the `.png` records, ordered by area from largest to smallest, and files of equal area keep the listing's order |
| Sorting.SortByCorrect | engine/pvil_analyzer.py:86 | Python's stable sort: a permutation of its input, in key order, keeping the input order among equal keys |
| SmartMerchandiser.Ranking | engine/smart_merchandiser.py:8 | the ranking is a permutation of the products |
| SmartMerchandiser.RankingSpec | engine/smart_merchandiser.py:8 | the ranking orders by priority, then by area from largest to smallest, keeps the input order among equal keys, and starts with a product of the best key |
| SmartMerchandiser.SmartMerchandize | engine/smart_merchandiser.py:2-41 | the proposal holds the fixed strategy text, the hero choice naming the first ranked file, and the placements of the ranking; an empty input is refused, as `sorted_products[0]` fails |
| SmartMerchandiser.PicksSpec | engine/smart_merchandiser.py:22-34 | one placement per product, in rank order: rank `k` carries its product's file and the role and size of rank `k` |
| SmartMerchandiser.PlaceRank | engine/smart_merchandiser.py:23-34 | the entry for rank `i` carries its product's file and the role and size of rank `i` |
| SmartMerchandiser.RoleAtSpec | engine/smart_merchandiser.py:11-23 | only the first rank is the hero, and every rank from the eighth on is an `accent` of size `xs` |
| SmartMerchandiser.HeroIsCandidate | engine/smart_merchandiser.py:8 | when the priorities are those the analyser computes, the hero is a hero candidate whenever any product is one |
| ManualMerchandiser.SlotsOf | engine/manual_merchandiser.py:27-49 | the slot names of a list of assignments, in order |
| ManualMerchandiser.FilesOf | engine/manual_merchandiser.py:27-49 | the file names of a list of assignments, in order |
| ManualMerchandiser.MerchandizeManual | engine/manual_merchandiser.py:7-52 | the layout is the fixed strategy and template (`reference_1_match`) with the assignments of the fixed rules whose files are present |
| ManualMerchandiser.ChosenMembers | engine/manual_merchandiser.py:27-49 | an assignment is made exactly when it is one of the rules and its file is among the items; every other file is ignored |
| ManualMerchandiser.RuleApplied | engine/manual_merchandiser.py:27-49 | each rule's slot receives its file exactly when that file is present |
| ManualMerchandiser.RulesDistinct | engine/manual_merchandiser.py:27-49 | the eight rules name eight different slots and eight different files |
| ManualMerchandiser.ChosenInjective | engine/manual_merchandiser.py:27-49 | no slot and no file is assigned twice |
| ManualMerchandiser.AssignedCount | engine/manual_merchandiser.py:51 | the printed count is the number of the eight fixed files present |
| ManualMerchandiser.ReferenceTemplate | engine/manual_merchandiser.py:20 | `reference_1_match` is a template of the placement engine's catalogue |
| ManualMerchandiser.RuleSlotExists | engine/manual_merchandiser.py:27-49 | every slot the rules name is a slot of that template |
| ManualMerchandiser.AssignedSlotsExist | engine/manual_merchandiser.py:18-49 | every assigned slot exists in `reference_1_match`, so `compute_layout` places an assignment exactly when its file exists |
| GenerateCollage.DropLeading | generate_collage.py:22 | `lstrip('#')` never lengthens the text and leaves it not starting with `#` |
| GenerateCollage.DropLeadingSuffix | generate_collage.py:22 | `lstrip('#')` leaves a suffix of the text, and everything it removed was a `#` |
| GenerateCollage.TrimSpace | generate_collage.py:23 | the text `int(…, 16)` parses is the input without surrounding whitespace |
| GenerateCollage.ParseHex2 | generate_collage.py:23 | two lower-case hex digits written for a value below 256 parse back to it |
| GenerateCollage.HexToRgbRoundTrip | generate_collage.py:20-23 | any number of leading `#`s, then three two-digit channels, and whatever follows: the colour comes back |
| GenerateCollage.HexToRgbRange | generate_collage.py:20-23 | each channel is at most 255 and is negative only when the text holds a minus sign; fewer than five characters after the `#`s make the parse fail |
| GenerateCollage.ShortHexRejected | generate_collage.py:20-23 | a three-digit CSS colour such as `#fff` is not understood |
| GenerateCollage.AmbiguousBands | generate_collage.py:52-66 | for an ambiguous label, in pixel terms: narrower than 4:5 the hero, from 4:5 to 19:20 the card, from 19:20 to 21:20 the small accessory, wider than 11:10 the frame, and no role in the gap between 21:20 and 11:10 |
| GenerateCollage.DistinctLabelRoles | generate_collage.py:67-78 | the other four labels get their fixed role whatever the image's shape |
| GenerateCollage.ExactWins | generate_collage.py:273-295 | pixel coordinates win over every other setting; each side comes from the container, then the size class's fixed size, then its percentage (35 and 30 by default) |
| GenerateCollage.AnchoredSpec | generate_collage.py:298-340 | a floating container gets `None` until its anchor is placed; then its corner is the anchor's top, bottom or middle and left, right or centre, by the words of `anchor_side` ("top_left" by default), moved by the percentage offsets; without a fixed size it is square |
| GenerateCollage.AbsoluteEdges | generate_collage.py:346-384 | margins are measured from the top and left of the content area, or from the bottom and right when a bottom or right margin is given; a zero margin is flush with that edge |
| GenerateCollage.PositionedEdges | generate_collage.py:387-426 | "left" measures from the top-left, "right" from the top-right, "bottom_center" is centred across and measured from the bottom, anything else is a 30% box centred both ways; a right or bottom container with no margin is flush with the content edge |
| GenerateCollage.PercentSum | generate_collage.py:387-408 | two non-negative percentages adding up to at most 100 take at most the whole of a length between them |
| GenerateCollage.SideContainerInside | generate_collage.py:387-408 | a left or right container whose margin and width percentages are non-negative and add up to at most 100 lies across the content area |
| GenerateCollage.DiscoverProductsFilenames | generate_collage.py:114-135 | a missing folder gives an empty mapping; otherwise the mapping the per-file steps build over the listing |
| GenerateCollage.RolesAppliedAt | generate_collage.py:132-134 | one file sets each role whose pattern its lower-cased name holds, and leaves every other role as it was |
| GenerateCollage.DiscoveredSpec | generate_collage.py:128-135 | each role goes to the last `.png` file of the listing whose name holds its pattern, and to nothing when there is none; no other key appears |
| GenerateCollage.DiscoverStepAt | generate_collage.py:130-134 | one `.png` file whose lower-cased name holds a pattern sets that role to its path; any other file leaves the role as it was, and no file adds a key outside the table |
| GenerateCollage.OneFileTwoRoles | generate_collage.py:132-134 | there is no `break`: a file named "towel_bag.png" fills both `hero_left` and `hero_right` |
| GenerateCollage.FirstFree | generate_collage.py:441-471 | the file found is unused and wanted by the container; when none is found, every later file is used or unwanted |
| GenerateCollage.MapProductsToContainers | generate_collage.py:428-473 | the mapping is the one the role pass and then the fill pass define |
| GenerateCollage.RolePassConsistent | generate_collage.py:436-461 | after the role pass every mapped file is an image of the listing and is marked used |
| GenerateCollage.FillPassConsistent | generate_collage.py:464-471 | the fill pass keeps that consistency |
| GenerateCollage.GiveBalanced | generate_collage.py:447-448 | giving an unused file to a container without one adds one key and one used file |
| GenerateCollage.MappedProductsDistinct | generate_collage.py:428-473 | each product file is used at most once: different containers get different image files of the listing |
| GenerateCollage.FillPassCovers | generate_collage.py:464-471 | after the fill pass each container has a file, or every image file is used |
| GenerateCollage.MappedProductsCount | generate_collage.py:428-473 | with distinct container ids and a listing without repeats, the mapping has as many entries as the smaller of the number of containers and the number of image files |
| GenerateFromJson.Basename | generate_from_json.py:34 | `os.path.basename` returns a name without `/` that ends the path |
| GenerateFromJson.LoadConfig | generate_from_json.py:16-39 | the final presets are the base presets merged, file after file, with each template file's presets or its single layout |
| GenerateFromJson.MergedSpec | generate_from_json.py:21-37 | a preset exists exactly when the base or some template file defines it; it holds the definition of the last file that does, and the base one only when no file does |
| GenerateFromJson.ReplaceTrailing | generate_from_json.py:34 | `replace` removes a pattern that occurs only at the very end |
| GenerateFromJson.TemplateNameOfFile | generate_from_json.py:34 | a file `<name>.json` of any folder becomes preset `<name>` when the name holds no `/` and ".json" only as its extension |
| GenerateFromJson.ZoneMapDistinct | generate_from_json.py:248-257 | the eight patterns map to eight different zones |
| GenerateFromJson.FirstPattern | generate_from_json.py:262-266 | the index found is the first pattern, from the given one on, that the lower-cased name holds; none exactly when no later pattern matches |
| GenerateFromJson.MatchPattern | generate_from_json.py:262-266 | the inner loop with its `break` finds that first pattern |
| GenerateFromJson.LoadFile | generate_from_json.py:261-266 | one pass of the outer loop is the per-file step |
| GenerateFromJson.LoadProductMapping | generate_from_json.py:240-269 | a missing folder gives an empty mapping; otherwise the mapping the per-file steps build over the listing |
| GenerateFromJson.LoadStepSpec | generate_from_json.py:261-266 | one file sets zone `k` exactly when its first matching pattern is the zone's, and leaves every other zone as it was |
| GenerateFromJson.LoadedHas | generate_from_json.py:259-267 | a zone is mapped exactly when some `.png` file's first matching pattern is the zone's |
| GenerateFromJson.LoadedLast | generate_from_json.py:259-267 | a mapped zone holds the path of the last such file |
| GenerateFromJson.LoadedKeys | generate_from_json.py:240-269 | every key of the mapping is a zone of the table |
| GenerateFromJson.OneZonePerFile | generate_from_json.py:262-266 | a `.png` file fills one zone only, that of its first matching pattern, even when its name holds later patterns too |
| GenerateFromJson.FitImageToZoneSpec | generate_from_json.py:271-295 | the zone fit is the shared contain fit followed by the centring offset, so the image lies inside the zone and fills it along one side |
| GenerateFromJson.DefaultWhite | generate_from_json.py:309 | the default background `#FFFFFF` parses to white |
| GenerateFromJson.StartRenderSpec | generate_from_json.py:297-309 | an unknown layout is an error exactly when the name is not a preset, checked before the colour; a known one gives its zones, and with no background the canvas is white |

## Left out

- Pixel work: opening, resizing, pasting and drawing images (Pillow, OpenCV), the header and footer renderers, the brush-stroke header and the body of both `render_storyboard` functions beyond the layout lookup and the background colour. Only the geometry that decides sizes and positions is modelled.
- The CLIP model and the Gemini calls. The label CLIP picks, its confidence, the measured edge density and a model's layout tree are inputs; `discover_products_smart` and the AI branch of `generate_layout_strategy` are not part of this model.
- Files and folders: reading JSON (configuration, manifest, templates), `os.listdir`, `glob`, `os.path.exists` and writing remix files. A folder is its listing (in the order the program sees it), a parsed file is a value, an unreadable file is an explicit case, and a written file is an entry of the designer's catalogue. File names are assumed to be their own base names.
- Randomness and order: `random.choice` is an index and `random.shuffle` a permutation, both passed in.
- Console output (`print`, error and warning messages) and the CLI `main` functions of every script.
- Floating point: Python floats are exact reals, so rounding at the thresholds (0.8, 1.2, 1.15, 0.3 …) is not modelled; `int()` is truncation toward zero.
- `lower()` is ASCII-only, and `int()` accepts only ASCII digits and ASCII whitespace, not the other Unicode digits and spaces Python accepts.
- A JSON `null` is treated like an absent key.
- The 15% inflation of `fit_image_to_slot` (`int(slot * 1.15)`) and the log-aspect penalty of the legacy matcher are parameters of the model. Their concrete formulas use `math.log` and floating point.
- `analyze_aspect_ratios`, `get_image_aspect` and `get_image_info`'s file access: the aspect, or the image size, is an input.
- The size table's `description` strings, the classifier's and merchandisers' `reason` strings, and the `size_mapping_text` and `inventory_text` prompts. Only the numbers and the classes are modelled.
- `load_legacy_layouts` and the designer's `_load_config`/`_load_layouts`: the legacy presets and base layouts are passed in already loaded.
- The `hex_to_rgb` of `generate_from_json.py` (lines 41-44) is the same code as the one in `generate_collage.py` and is modelled once, as `GenerateCollage.HexToRgb`.
- GenerateCollage.MappedProductsCount: stated only for distinct container ids. With a repeated id, the role pass can consume a product and then overwrite it, and that product is lost.
- Boxes.MakeContainer: its contract states the id and which keys are set, not the truncated values the body stores in them. Those values are read directly where they are used.
- Designer.LayoutDesigner.GenerateRemixes: the mixing strategy is modelled only for bases whose every box has a readable left edge, top, width and height. Python reads the left edge and width of every box (engine/layout_designer.py:97, :104). It reads the top and height only for the pairs `_check_collisions` reaches behind its short-circuiting `and` (:132-147), and raises TypeError on a `None` there. That error outcome is not modelled. The same restriction applies to `Designer.LayoutDesigner.MixVariant` and `Designer.LayoutDesigner.CheckCollisions`. Strategies 1 and 2 (`SaveBaseRemixes`) need only the left edge and width.
- Designer.LayoutDesigner.GenerateRemixes: a preset without a `containers` key is not modelled. The base loop reads it as `[]` (engine/layout_designer.py:59), but the mixing loop indexes `["containers"]` (:78) and raises KeyError as soon as there is a second preset. A preset here always has a list of containers.
- Solver.LayoutSolver.ProcessGrid: a grid with items must have a positive `columns` count (`LayoutTree.GridReady`). With `columns` 0, Python raises ZeroDivisionError (engine/layout_solver.py:65). A negative count raises the same error at line 68 when `math.ceil` rounds the row count to 0. Otherwise it runs: it emits cells of negative size and places them with floored `//` and `%` by a negative divisor. Neither outcome is modelled, and the same holds for `Solve` and `ProcessNode`, which require `SolverReady`.
- Templates.MapInventoryToLegacy: every slot must have a non-zero `height_px` (`Templates.HasHeight`). A slot with `height_px` 0 makes Python raise ZeroDivisionError at `s_w / s_h` (engine/templates.py:372); the same holds for `Best`, `BestCandidate` and `GetValidTemplates`.
- Validator.PercentagesBounded: stated only for trees whose grids have positive column counts. With a negative count a grid whose own share is negative gives its cells a positive share, which exceeds it.
- LayoutGenerator.LayoutSingleHeroAsymmetric: at least one hero is required. With no hero, Python raises IndexError at `heroes[0]` (engine/layout_generator.py:97); that outcome is not modelled.
- LayoutGenerator.LayoutSplitWings: at least two heroes are required. With fewer, Python raises IndexError at `heroes[0]` or `heroes[1]` (engine/layout_generator.py:164, :167); that outcome is not modelled.
- SmartMerchandiser.SmartMerchandize: the product list must be non-empty. An empty list makes Python raise IndexError at `sorted_products[0]` (engine/smart_merchandiser.py:39); that outcome is not modelled.
- SmartClassify.ScanDirectory: the listing is taken already in processing order. Outside flexible mode Python sorts it with `files.sort()` (engine/smart_classify.py:203), and in flexible mode it shuffles it (:199). Neither reordering is applied inside the model: the caller passes the sorted or shuffled listing.
- ImageUtils.FitToBox: with `maintain_aspect`, the box height must be non-zero. A zero height makes Python raise ZeroDivisionError at `max_width / max_height` (engine/image_utils.py:37).
- GenerateFromJson.FitImageToZone: the zone height must be non-zero. A zero height makes Python raise ZeroDivisionError at `zone_w / zone_h` (generate_from_json.py:278).
- PvilAnalyzer.AnalyzeProducts: the measurements of each image are inputs, so two crashes of engine/pvil_analyzer.py:17-39 are not modelled. One is an unreadable PNG: `cv2.imread` returns `None` and `img.shape` raises. The other is a grayscale image read as a two-dimensional array: `img[:, :, :3]` raises IndexError.
- Common.JoinPath: models `os.path.join` only for a relative second argument. An absolute name, which would replace the directory, is not modelled.
