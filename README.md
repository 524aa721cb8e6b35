# label-dcm: the annotation core of `LabelApp`

label-dcm is a desktop tool for labelling medical images. The user places numbered points on the
image, then draws lines, angles and circles between them and marks some points as pivots. The
labels can also be exported to a JSON document and imported back. All of this state lives in the
class `LabelApp` (module/app.py):

- `points`: index → (position, colour)
- `lines`: canonical pair key → colour
- `angles`: canonical triple key → colour
- `circles`: (centre, rim) → colour
- `pivots`: a set of indices

A selection of up to three signed slots (`index_a/b/c`) records the picks of the current gesture.
A negative value marks a point the gesture itself created. The highlight set holds the absolute
values of the slots. Each drawing mode (point, line, angle, circle, midpoint, vertical, drag,
erase) is a small state machine over mouse events.

The project has a pure layer and an imperative class:

- The pure layer holds one module per concern:
  - `Keys`: the canonical keys
  - `Geometry`: coordinate transforms and the geometric helpers
  - `Annotation`: the graph store and its integrity rule
  - `Selection`: the slots and `trigger_index`
  - `Modes`: the per-mode event handlers and the invariant they keep
  - `Relabel`: `modify_index`
  - `Document`: the export/import format
  - `Zoom`: the zoom clamp
  - `Collections`: generic map and set facts used by the loops
- The class `App.LabelApp` has the source's fields, and its methods change them in place.
  - Each method is proved to leave the new state equal to the matching pure function of the old
    state, or related to it as `Relabel.Moved` states.
  - The loops over key snapshots (erase, relabel, export, import, rescale) are `while` and `for`
    loops with their invariants.

The integrity rule `Annotation.Valid` says:

- every index is positive;
- lines, circles and pivots refer to existing points;
- every angle's two arms are lines.

The invariant `Modes.Inv` adds two things:

- the selection is packed and its highlights are exactly the absolute slot values, all of them
  points;
- each mode's own bound on the slots between events holds.

`App.LabelApp.HandleEvent` preserves `Modes.Inv` for every mode and every event.

Model assumptions:

- **Canonical keys.** `get_line_key` and `get_angle_key` live in module/utils.py, which is not part
  of this model. They are taken to be:
  - pair key = (min, max);
  - triple key = the outer indices sorted, with the vertex kept in the middle.
- **Geometric helpers.** The distance, midpoint, foot point, collinear, on-segment and in-bounds
  helpers are uninterpreted functions held in a `Geometry.Helpers` value. So are the hit radius
  (`point_width - eps`) and the rim offset `2 * eps`.
- **Positions** are exact `real` pairs. **Colours** are their names: `QColor(name).name()`
  round-trips.
- **The image guard.** `self.img` becomes the boolean `imageLoaded`. The ratios `ratio_from_old`
  and `ratio_to_src` that `update_img` computes from widget sizes are parameters of
  `App.LabelApp.UpdateView` (and of the zoom methods, which end with it) and of
  `App.LabelApp.OpenImage`.
- **Modes.** `LabelMode` lives in module/mode.py, which is not part of this model. `DEFAULT_MODE` is assumed to be a value distinct from the eight modes that eventFilter dispatches on, so no handler runs in it.
- **Python truthiness** is spelled out:
  - a slot or hit of `None` or `0` is falsy (`Selection.Truthy`);
  - `if index in (a, b, c)` compares signed values.

The model follows the code in two places where its behaviour is surprising:

- **Self-lines.** In line mode, a press on an empty spot creates point `k` and stores slot `-k`.
  A second press on that new point gives slot `k`. The signed comparison sees two different
  picks, so `add_line(k, k)` stores a line from the point to itself
  (`Modes.LineOnFreshPointIsSelfLine`).
- **Dangling lines after a relabel.** Relabelling such a point re-keys the self-line to
  `(k, new)`, which names the vanished index `k` (`Relabel.RelabelOfSelfLineDangles`). The
  relabel lemmas therefore assume a graph without self-lines (`Annotation.Simple`). The
  relabel itself does not: that graph can be relabelled again
  (`Relabel.DanglingGraphRelabelsAgain`).

## Model

| member | source | states |
|---|---|---|
| Keys.LineKey | module/app.py:377-379 | the pair key is ordered and holds exactly the two given indices |
| Keys.AngleKey | module/app.py:381-384 | the triple key keeps the vertex in the middle, orders the outer indices and holds exactly them |
| Keys.LineKeySymmetric | module/app.py:377-379 | a line from a to b has the same key as one from b to a |
| Keys.AngleKeySymmetric | module/app.py:381-384 | angle abc has the same key as angle cba |
| Keys.CanonicalKeysAreFixed | module/app.py:720-723 | re-keying an already canonical key changes nothing, so imported canonical rows keep their keys |
| Geometry.ImgPoint | module/app.py:172-173 | get_img_point is the identity at ratio 1 |
| Geometry.ImgOfSrc | module/app.py:169-173 | get_img_point undoes get_src_point for any nonzero ratio |
| Geometry.SrcOfImg | module/app.py:169-173 | get_src_point undoes get_img_point for any nonzero ratio |
| Geometry.Scaled | module/app.py:165-170 | multiplying both coordinates by ratio 1 leaves a position unchanged (update_points and get_src_point both scale this way) |
| Geometry.ScaledComposes | module/app.py:165-166 | scaling by a and then by b is scaling by a*b |
| Annotation.AbsentIndexIsUnmentioned | module/app.py:390-403 | in a valid graph an index that is not a point appears in no line, angle, circle or pivot |
| Annotation.MaxOf | module/app.py:369 | the maximum of a non-empty key set is in the set and bounds every element |
| Annotation.NewIndex | module/app.py:368-369 | get_new_index exceeds every existing index, so it is unused; it is 1 for no points and otherwise one more than an existing key |
| Annotation.NewIndexPositive | module/app.py:368-369 | in a valid graph the new index is positive |
| Annotation.AddPoint | module/app.py:371-375 | add_new_point stores the point under an index not used before; the keys grow by exactly that index |
| Annotation.AddPointKeepsValid | module/app.py:371-375 | adding a point keeps integrity, stores the position and colour, and leaves every other point and all edges and pivots unchanged |
| Annotation.AddLineKeepsValid | module/app.py:377-379 | add_line keeps integrity and the points |
| Annotation.AddAngleKeepsValid | module/app.py:381-384 | add_angle keeps integrity and the points |
| Annotation.AddCircleKeepsValid | module/app.py:386-388 | add_circle keeps integrity and the points |
| Annotation.AddEdgeStoresOnlyWhenPresent | module/app.py:377-388 | a line or circle is stored only when both endpoints exist, an angle only when both arm lines exist; a stored line has the current colour |
| Annotation.InPlaceUpdatesKeepValid | module/app.py:418-522 | recolouring or moving an existing point keeps integrity and the index set |
| Annotation.EraseKeepsValid | module/app.py:390-403 | erase_point keeps integrity, and a graph without self-lines stays without them |
| Annotation.EraseCascade | module/app.py:390-403 | erasing a point removes it, its pivot mark and every line, angle and circle naming it; everything else stays with its value; an absent index is a no-op |
| Annotation.EraseUndoesAddPoint | module/app.py:371-403 | erasing a point just added gives back the graph before |
| Annotation.SwitchPivotToggles | module/app.py:574-583 | with an image, switching an existing point's pivot state flips its membership, leaves the other pivots alone, and twice is no change; without an image nothing changes |
| Annotation.PivotChangesKeepValid | module/app.py:574-583 | add_pivots, remove_pivots and switch_pivot_state keep integrity |
| Annotation.RescaleKeepsValid | module/app.py:161-167 | rescaling the positions keeps the indices and integrity |
| Annotation.RescaleByOne | module/app.py:161-167 | a ratio of 1 leaves the points unchanged, which is why update_points skips it |
| Annotation.RescaleComposes | module/app.py:161-167 | two rescalings in a row are one rescaling by the product of the ratios |
| Selection.Occupied | module/app.py:351 | the list of truthy slot values has at most three entries, each a non-zero slot value |
| Selection.Count | module/app.py:338-339 | get_index_cnt is between 0 and 3; it is 0 exactly when no slot is truthy and 3 exactly when all are |
| Selection.EndTriggerWith | module/app.py:360-366 | end_trigger_with leaves no slot filled, nothing highlighted and the hover on the given index |
| Selection.PackedIsList | module/app.py:351-357 | packed slots are rebuilt unchanged from their own list of values |
| Selection.WithoutPacked | module/app.py:344-348 | dropping a value of packed slots and compacting gives the slots of the list without that entry |
| Selection.TriggerRemoves | module/app.py:344-349 | triggering a selected value removes it from the list, compacts left, clears slot c and drops its absolute value from the highlights |
| Selection.TriggerAppends | module/app.py:350-358 | triggering an unselected value appends it after the filled slots (a fourth is dropped) and highlights its absolute value |
| Selection.TriggerIgnores | module/app.py:342-343 | without an image or points, or with a falsy index, trigger_index changes nothing |
| Selection.TriggerTwiceIsNoChange | module/app.py:341-358 | triggering a new value twice gives back the selection |
| Selection.TriggerFirstDropsIt | module/app.py:441-491 | triggering slot a with two or three filled drops the first pick and keeps the later ones in order |
| Selection.TriggerAfterEnd | module/app.py:447-502 | after end_trigger, triggering c leaves only c selected and highlighted |
| Selection.TracksEmpty | module/app.py:360-362 | with no slot filled, the selection invariant holds exactly when nothing is highlighted |
| Selection.AbsAfterRemoval | module/app.py:344-349 | removing a selected value keeps the selection invariant |
| Selection.AbsAfterAppend | module/app.py:350-358 | appending a new point's value keeps the selection invariant |
| Selection.TriggerKeepsTracks | module/app.py:341-358 | trigger_index keeps the selection invariant whenever a new value is a point not yet picked and a slot is free |
| Modes.HitIsOk | module/app.py:323-332 | a hit-test result is an existing, positive index of a valid graph |
| Modes.HitsAgree | module/app.py:323-332 | any two results of the hit test at one position agree on whether a point is hit and on its distance |
| Modes.HitOrNew | module/app.py:427-457 | substituting a new point for a miss leaves the selection to the following trigger_index |
| Modes.EraseHighlight | module/app.py:405-411 | erase_highlight leaves the selection idle |
| Modes.PointModeKeepsInv | module/app.py:413-421 | point mode keeps the invariant |
| Modes.LineKeepsValid | module/app.py:423-434 | line mode keeps integrity and never loses a point |
| Modes.LineKeepsTracks | module/app.py:423-434 | after a line-mode press at most one slot is filled and the selection invariant holds |
| Modes.LineEnded | module/app.py:429-433 | the second line pick ends the gesture with nothing selected and the invariant holds |
| Modes.LinePickKept | module/app.py:427-428 | a line pick that does not complete a line leaves at most one slot filled and the selection invariant holds |
| Modes.LineModeKeepsInv | module/app.py:423-434 | line mode keeps the invariant |
| Modes.AngleKeepsValid | module/app.py:436-450 | angle mode keeps integrity |
| Modes.AngleKeepsTracks | module/app.py:436-450 | angle mode keeps the selection invariant; two picks are positive and always a line |
| Modes.AngleDropsFirst | module/app.py:439-440 | two angle picks that are not a line leave only the second pick, and the selection invariant holds |
| Modes.AngleKeepsThird | module/app.py:446-449 | a third angle pick with (b, c) not a line leaves only the third pick, and the selection invariant holds |
| Modes.AngleEnded | module/app.py:442-444 | an angle gesture ended on c leaves nothing selected and the invariant holds |
| Modes.AngleModeKeepsInv | module/app.py:436-450 | angle mode keeps the invariant |
| Modes.CircleKeepsValid | module/app.py:452-469 | circle mode keeps integrity |
| Modes.CircleStartKeepsTracks | module/app.py:454-461 | the first press of a circle fills exactly two slots and keeps the selection invariant |
| Modes.CircleModeKeepsInv | module/app.py:452-469 | circle mode keeps the invariant; between events zero or two slots are filled |
| Modes.MidpointKeepsValid | module/app.py:471-483 | midpoint mode keeps integrity |
| Modes.MidpointKeepsTracks | module/app.py:471-483 | midpoint mode keeps the selection invariant with at most one positive pick |
| Modes.MidpointModeKeepsInv | module/app.py:471-483 | midpoint mode keeps the invariant |
| Modes.FootLinesKeepValid | module/app.py:504-511 | adding the foot point and its lines keeps integrity and the existing points |
| Modes.VerticalKeepsValid | module/app.py:485-513 | vertical mode keeps integrity and never loses a point |
| Modes.VerticalThirdKeepsTracks | module/app.py:492-512 | the third vertical pick keeps the selection invariant |
| Modes.VerticalKeepsTracks | module/app.py:485-513 | vertical mode keeps the selection invariant; two picks are always a line |
| Modes.VerticalModeKeepsInv | module/app.py:485-513 | vertical mode keeps the invariant |
| Modes.DragModeKeepsInv | module/app.py:515-525 | drag mode keeps the invariant |
| Modes.EraseModeKeepsInv | module/app.py:527-530 | erase mode keeps the invariant |
| Modes.HandleEventKeepsInv | module/app.py:613-638 | every event in every mode, followed by the hover update on a move, keeps the invariant |
| Modes.HandleKeepsInv | module/app.py:618-633 | the handler of every mode keeps the invariant |
| Modes.HoverKeepsInv | module/app.py:634-635 | changing the hover index keeps the invariant |
| Modes.IdleIsInv | module/app.py:135-142 | a valid graph with an idle selection satisfies the invariant in every mode |
| Modes.EraseMarkedKeepsValid | module/app.py:406-408 | erasing a gesture-created point keeps integrity |
| Modes.EraseHighlightKeepsValid | module/app.py:405-411 | erase_highlight keeps integrity |
| Modes.SwitchModeEstablishesInv | module/app.py:811-813 | after erase_highlight the invariant of any mode holds, so switch_mode may pick any mode |
| Modes.ErasedPoints | module/app.py:406-408 | a slot erases exactly the point its value marks as created in the gesture |
| Modes.EraseHighlightErasesMarked | module/app.py:405-411 | erase_highlight erases exactly the negatively marked points and leaves no slot, hover or highlight |
| Modes.LineSecondPick | module/app.py:428-433 | a second pick on another point adds the line between the absolute indices and ends with the hover on the second |
| Modes.LineOnFreshPointIsSelfLine | module/app.py:428-433 | a press on an empty spot followed by a press on the point it created stores a self-line |
| Modes.AngleSecondPickOffLine | module/app.py:440-441 | a second angle pick that is not a line keeps only the second pick |
| Modes.AngleThirdPick | module/app.py:442-449 | with (b,c) a line the third pick adds angle abc and ends with the hover on c; otherwise only c stays selected |
| Modes.VerticalCollinearKeepsBC | module/app.py:496-498 | a collinear third pick with (b,c) a line leaves slots (b,c) and the graph unchanged |
| Modes.MidpointOnLine | module/app.py:475-480 | a second pick forming a line adds the midpoint as a new point and ends with the hover on b |
| Modes.DragMovesThenReleases | module/app.py:519-524 | with one point picked, an in-bounds move moves it and a release clears the selection |
| Modes.ErasePressErases | module/app.py:527-530 | a left press erases the hit point |
| Modes.EraseUnmentioned | module/app.py:390-411 | erasing a point nothing refers to undoes its addition |
| Modes.EraseCentre | module/app.py:390-411 | erasing a new centre also drops its circle, undoing both |
| Modes.CircleOnEmptySpot | module/app.py:454-461 | a press on an empty spot creates the centre and a rim point, stores the circle, and marks both as created |
| Modes.CircleAbandonedIsUndone | module/app.py:405-461 | switching away right after starting a circle on an empty spot leaves the graph as before |
| Modes.UndoCircleStart | module/app.py:405-411 | erasing the negative slots of a fresh centre and rim removes both points and their circle, leaving the graph as before |
| Relabel.LineRenamingSteps | module/app.py:552-557 | the line re-keying never sends two keys to one and is undone by renaming back |
| Relabel.AngleRenamingSteps | module/app.py:557-565 | the angle re-keying never sends two keys to one and is undone by renaming back |
| Relabel.CircleRenamingSteps | module/app.py:565-569 | the circle re-keying never sends two keys to one and is undone by renaming back |
| Relabel.LineLoopStep | module/app.py:552-556 | one pass of the line loop stores the line under the new index and its other endpoint and pops the old key, or leaves it alone |
| Relabel.AngleLoopStep | module/app.py:557-564 | one pass of the angle loop replaces a vertex in place or re-keys an endpoint, and pops the old key |
| Relabel.CircleLoopStep | module/app.py:565-569 | one pass of the circle loop keeps centre and rim order |
| Relabel.ValidAllowsRelabel | module/app.py:542-550 | a valid graph can relabel an existing point to an unused index |
| Relabel.MovedLines | module/app.py:552-556 | lines not naming i keep key and colour; a line naming i is found, same colour, under the key of n and its other endpoint |
| Relabel.MovedAngles | module/app.py:557-564 | angles not naming i are kept; a vertex i becomes n in place; an endpoint i is re-keyed through the angle key |
| Relabel.MovedCircles | module/app.py:565-569 | a centre i becomes (n, rim), a rim i becomes (centre, n), other circles are kept |
| Relabel.MovedIsUnique | module/app.py:540-572 | the relabelled graph is determined by the old graph and the two indices |
| Relabel.MovedKeepsLinesValid | module/app.py:552-556 | without self-lines, the relabelled lines are canonical, name existing points and never the old index |
| Relabel.RenamedArms | module/app.py:557-564 | renaming an angle renames both its arm lines the same way |
| Relabel.MovedKeepsAnglesValid | module/app.py:557-564 | after relabelling every angle's arms are still lines |
| Relabel.MovedKeepsCirclesValid | module/app.py:565-569 | after relabelling circles name existing points and never the old index |
| Relabel.MovedKeepsValid | module/app.py:540-572 | relabelling keeps integrity and the absence of self-lines, and the result can be relabelled back |
| Relabel.LinesMovedBack | module/app.py:552-556 | re-keying lines from i to n and back restores them |
| Relabel.AngleRenamedBack | module/app.py:557-564 | renaming an angle key from i to n and back restores it |
| Relabel.AnglesMovedBack | module/app.py:557-564 | re-keying angles from i to n and back restores them |
| Relabel.CirclesMovedBack | module/app.py:565-569 | re-keying circles from i to n and back restores them |
| Relabel.MovedBack | module/app.py:540-572 | relabelling i to n and then n to i restores the graph |
| Relabel.RelabelOfSelfLineDangles | module/app.py:552-556 | relabelling the end of a self-line leaves a line naming the old index |
| Relabel.CheckAnswer | module/app.py:541-549 | the dialog answer is declined when cancelled or unchanged, refused when not positive or already used, and accepted otherwise (each an if-and-only-if) |
| Relabel.AcceptedAnswerAllowsRelabel | module/app.py:541-549 | an accepted answer is a positive index the graph can move to |
| Relabel.RelabelRoundTrip | module/app.py:540-572 | after an accepted relabel the graph is valid, the answer to relabel back is accepted, and relabelling back restores the graph |
| Document.PointRowOf | module/app.py:746-748 | a point row holds the index, the source-image coordinates and the colour name |
| Document.PivotRowOf | module/app.py:776-778 | a pivot row holds the index and the source-image coordinates |
| Document.PointRowsList | module/app.py:716-748 | exported point rows list the points exactly as import reads them |
| Document.CanonicalRowsList | module/app.py:719-751 | exported line rows with canonical keys read back under the same keys |
| Document.CanonicalAngleRowsList | module/app.py:722-754 | exported angle rows with canonical keys read back under the same keys |
| Document.PointsRoundTrip | module/app.py:716-748 | importing the exported point rows gives back the points, positions through get_img_point(get_src_point(p)) |
| Document.LinesRoundTrip | module/app.py:719-751 | importing the exported line rows gives back the lines |
| Document.AnglesRoundTrip | module/app.py:722-754 | importing the exported angle rows gives back the angles |
| Document.ImportOfExportAll | module/app.py:709-758 | importing the full export of a valid graph gives back the graph, pivots included |
| Document.ImportOfExportPivots | module/app.py:710-778 | importing a pivot export gives one point per pivot, in the current colour and at the same position, each a pivot, and no edges |
| Document.ImportedPivotsArePoints | module/app.py:710-714 | a one-key document's points are exactly its pivots |
| Zoom.Inc | module/app.py:781-786 | zooming in never goes above 200%, never shrinks a zoom within range, and adds at most one 10% step |
| Zoom.Dec | module/app.py:788-793 | zooming out never goes below 50%, never grows a zoom within range, and takes off at most one step |
| Zoom.StepsStayInRange | module/app.py:781-793 | from within the 50..200 range, both buttons stay in it |
| Zoom.DecUndoesInc | module/app.py:781-793 | zooming in and back out returns to the same size below the cap |
| Zoom.IncUndoesDec | module/app.py:781-793 | zooming out and back in returns to the same size above the floor |
| Zoom.IncTimesIsCapped | module/app.py:781-786 | n presses of zoom-in add n steps until 200% and then stay there |
| Zoom.DecTimesIsFloored | module/app.py:788-793 | n presses of zoom-out take off n steps until 50% and then stay there |
| App.LabelApp.constructor | module/app.py:14-74 | a new window has no labels, an idle selection, no image, zoom 100%, ratios 1, and the invariant |
| App.LabelApp.ResetIndex | module/app.py:126-129 | empties the three slots and changes nothing else of the selection |
| App.LabelApp.ResetHighlight | module/app.py:131-133 | clears the hover and the highlights |
| App.LabelApp.EndTrigger | module/app.py:360-362 | leaves the selection idle |
| App.LabelApp.EndTriggerWith | module/app.py:364-366 | leaves the selection with no slot, no highlight and the hover on the index |
| App.LabelApp.TriggerIndex | module/app.py:341-358 | the new selection is trigger_index of the old one under the guard "image loaded and some point" |
| App.LabelApp.AddNewPoint | module/app.py:371-375 | with an image, stores the point under the new index and returns that index; without, returns nothing and changes nothing |
| App.LabelApp.AddLine | module/app.py:377-379 | the graph becomes add_line of the old graph with the current colour, under the image guard |
| App.LabelApp.AddAngle | module/app.py:381-384 | the graph becomes add_angle of the old graph, under the image guard |
| App.LabelApp.AddCircle | module/app.py:386-388 | the graph becomes add_circle of the old graph, under the image guard |
| App.LabelApp.DropLinesWith | module/app.py:394-396 | the key-snapshot loop keeps exactly the lines not naming the index |
| App.LabelApp.DropAnglesWith | module/app.py:397-399 | the key-snapshot loop keeps exactly the angles not naming the index |
| App.LabelApp.DropCirclesWith | module/app.py:400-402 | the key-snapshot loop keeps exactly the circles not naming the index |
| App.LabelApp.ErasePoint | module/app.py:390-403 | the graph becomes the cascading erase of the old one (see Annotation.EraseCascade); run from the right-button menu, with nothing selected, it keeps the invariant |
| App.EraseAll | module/app.py:406-408 | erasing a sequence of marks never adds a point |
| App.LabelApp.RemovePoint | module/app.py:392-403 | the point, every line, angle and circle naming it and its pivot mark are removed, as Annotation.Erase states |
| App.EraseAllOfSlots | module/app.py:406-408 | the marks loop over slots a, b, c erases what Modes.EraseHighlight erases |
| App.LabelApp.EraseHighlight | module/app.py:405-411 | the state becomes Modes.EraseHighlight of the old state; the settings lie outside its frame |
| App.LabelApp.EraseMarks | module/app.py:406-408 | the loop over the three slots erases, slot by slot, the point each negative slot marks |
| App.LabelApp.SwitchMode | module/app.py:811-813 | erases the gesture's marks, then sets the mode; the invariant holds in the new mode |
| App.LabelApp.ChangeColor | module/app.py:808-809 | sets the current colour |
| App.LabelApp.AddPivots | module/app.py:574-576 | the graph becomes AddPivot of the old one, under the image guard |
| App.LabelApp.RemovePivots | module/app.py:578-580 | the graph becomes RemovePivot of the old one when an image is loaded and some pivot exists |
| App.LabelApp.SwitchPivotState | module/app.py:582-583 | the graph becomes SwitchPivot of the old one (see Annotation.SwitchPivotToggles); with nothing selected it keeps the invariant |
| App.LabelApp.RenameLines | module/app.py:552-556 | the loop over a snapshot of the line keys re-keys the lines as Relabel.LinesMoved states |
| App.LabelApp.RenameAngles | module/app.py:557-564 | the loop over a snapshot of the angle keys re-keys the angles as Relabel.AnglesMoved states |
| App.LabelApp.RenameCircles | module/app.py:565-569 | the loop over a snapshot of the circle keys re-keys the circles as Relabel.CirclesMoved states |
| App.LabelApp.ModifyIndex | module/app.py:540-572 | returns the verdict on the answer; an accepted answer moves point, lines, angles, circles and pivot mark to the new index (Relabel.Moved); any other answer changes nothing; on a graph without self-lines and with nothing selected it keeps the invariant |
| App.LabelApp.MoveIndex | module/app.py:550-572 | the point, every key naming the old index and its pivot mark move to the new index (Relabel.Moved) |
| App.RelabelKeepsInv | module/app.py:540-572 | a relabel with nothing selected, on a graph without self-lines, keeps the invariant |
| Modes.NoSelectionKeepsInv | module/app.py:601-603 | after the menu's erase_highlight any change to another valid graph keeps the invariant |
| Relabel.DanglingGraphRelabelsAgain | module/app.py:540-572 | the graph with a dangling line that a self-line relabel leaves still meets what the rewrite loops need |
| App.LabelApp.ResetImg | module/app.py:117-124 | no image and both ratios 1 |
| App.LabelApp.ResetExceptImg | module/app.py:135-142 | no labels and an idle selection |
| App.LabelApp.ClearLabels | module/app.py:802-806 | with an image, no labels and an idle selection; without one, nothing changes; the invariant holds |
| App.LabelApp.UpdatePoints | module/app.py:161-167 | with an image, points and a ratio other than 1, every position is rescaled and the ratio becomes 1, so a second call changes nothing; otherwise nothing changes |
| App.LabelApp.UpdateView | module/app.py:148-167 | without an image the image state is reset; with one the ratios are set and the points rescaled as update_points does; the invariant is kept |
| App.LabelApp.OpenImage | module/app.py:663-673 | a new image resets all labels and the selection, sets the ratios and keeps the invariant |
| App.LabelApp.DeleteImage | module/app.py:675-680 | with an image, removes it together with all labels; without one, nothing changes |
| App.LabelApp.IncImgSize | module/app.py:781-786 | the zoom becomes Zoom.Inc of the old zoom, then update_all rescales the points by the new ratio as UpdateView does; the invariant is kept |
| App.LabelApp.DecImgSize | module/app.py:788-793 | the zoom becomes Zoom.Dec of the old zoom, then the points are rescaled as UpdateView does; the invariant is kept |
| App.LabelApp.ResetImgSize | module/app.py:795-800 | the zoom becomes 100%, then the points are rescaled as UpdateView does; the invariant is kept |
| App.LabelApp.SetImgSizeSlider | module/app.py:815-819 | the zoom becomes the slider's value, then the points are rescaled as UpdateView does; the invariant is kept |
| App.LabelApp.GetPointIndex | module/app.py:323-332 | without an image, no hit; with one, the loop returns a point strictly inside the hit radius and nearest the position, or no hit when none is inside |
| App.LabelApp.HandlePointMode | module/app.py:413-421 | the state becomes Modes.PointHandler of the old state |
| App.LabelApp.HitOrNewPoint | module/app.py:427-457 | the hit index, or the negated index of a point added at the position |
| App.LabelApp.PickHitOrNew | module/app.py:426-428 | picks the hit point, or a new point at the press marked negative |
| App.LabelApp.JoinPicks | module/app.py:429-433 | adds the line between the two picks and ends the gesture hovering on its second end |
| App.LabelApp.HandleLineMode | module/app.py:423-434 | the state becomes Modes.LineHandler of the old state |
| App.LabelApp.HandleAngleMode | module/app.py:436-450 | the state becomes Modes.AngleHandler of the old state |
| App.LabelApp.StartCircle | module/app.py:454-461 | picks or creates the centre, then adds the rim point, picks it and adds the circle, as Modes.WithRim states |
| App.LabelApp.PickNewPoint | module/app.py:458-460 | adds a point at the position and picks it marked negative |
| App.LabelApp.DragRim | module/app.py:464-468 | a move puts the rim point of slot b at the position, keeping its colour |
| App.LabelApp.AddRim | module/app.py:458-461 | adds the rim point and the circle as Modes.WithRim states |
| App.LabelApp.HandleCircleMode | module/app.py:452-469 | the state becomes Modes.CircleHandler of the old state |
| App.LabelApp.AddMidpoint | module/app.py:476-480 | adds the midpoint of the two picks and ends the gesture hovering on the second |
| App.LabelApp.HandleMidpointMode | module/app.py:471-483 | the state becomes Modes.MidpointHandler of the old state |
| App.LabelApp.AddFoot | module/app.py:503-512 | adds the foot point and its lines as Modes.FootLines states, and ends with the hover on c |
| App.LabelApp.VerticalThirdPick | module/app.py:492-512 | the state becomes Modes.VerticalThird of the old state |
| App.LabelApp.HandleVerticalMode | module/app.py:485-513 | the state becomes Modes.VerticalHandler of the old state |
| App.LabelApp.HandleDragMode | module/app.py:515-525 | the state becomes Modes.DragHandler of the old state |
| App.LabelApp.HandleErasePointMode | module/app.py:527-530 | the state becomes Modes.EraseHandler of the old state |
| App.LabelApp.Dispatch | module/app.py:629-636 | the state becomes the handler of the current mode applied to the old state |
| App.LabelApp.HandleEvent | module/app.py:532-638 | with an image, hit-tests the position, runs the mode's handler, and on a move puts the hover on the point under the cursor; the settings lie outside its frame and the invariant is kept |
| App.LabelApp.DispatchAndHover | module/app.py:617-635 | runs the mode's handler, then on a move stores the hit test at the position as the hover |
| App.LabelApp.PointRows | module/app.py:745-748 | the loop lists every point once, in source-image coordinates with its colour |
| App.ListPairs | module/app.py:749-757 | the loop lists every line or circle once with its colour |
| App.ListTriples | module/app.py:752-754 | the loop lists every angle once with its colour |
| App.ListSet | module/app.py:758 | list(self.pivots) holds each pivot exactly once |
| App.LabelApp.ExportAll | module/app.py:731-759 | with an image, a document listing every point, line, angle, circle and pivot (see Document.ImportOfExportAll); without one, nothing |
| App.LabelApp.PivotRows | module/app.py:775-778 | the loop lists every pivot once, in source-image coordinates |
| App.LabelApp.ExportPivots | module/app.py:761-779 | with an image, the document of the pivots (see Document.ImportOfExportPivots); without one, nothing |
| App.LabelApp.StorePointRows | module/app.py:716-718 | stores the point rows in order, converted by get_img_point |
| App.LabelApp.StorePivotRows | module/app.py:711-714 | stores each pivot row as a point in the current colour and marks it a pivot |
| App.LabelApp.StoreLineRows | module/app.py:719-721 | stores the line rows in order under their canonical keys |
| App.LabelApp.StoreAngleRows | module/app.py:722-724 | stores the angle rows in order under their canonical keys |
| App.LabelApp.StoreCircleRows | module/app.py:725-727 | stores the circle rows in order under (centre, rim) |
| App.LabelApp.StoreDoc | module/app.py:710-728 | after the reset, the graph is the document as Document.Imported reads it |
| App.LabelApp.ImportLabels | module/app.py:696-729 | with an image and a document, the labels become the document's and the selection is idle; otherwise nothing changes; a valid document keeps the invariant |

## Left out

- Painting and rendering are left out: `label_points`, `label_lines`, `label_angles`, `label_circles`, `update_labels`, `update_img_view`, and `update_pivots_info`. They only draw. `resizeEvent` does more: its `update_all` rescales the points by the ratio of the new window size, which is `App.LabelApp.UpdateView` with the ratios of that size. Inside the handlers `update_all` is a no-op: at a fixed window size `update_img` gives `ratio_from_old = 1`, so `update_points` changes nothing. The zoom methods, whose `update_all` does rescale, end with `App.LabelApp.UpdateView`.
- The widget arithmetic of `update_img` is left out. It depends on widget sizes and `QPixmap.scaled`. The ratios it produces are parameters of `App.LabelApp.UpdateView`, and `img_size` is kept in percent.
- File dialogs, `QMessageBox` warnings, JSON files and `utils.load_from_json` / `utils.save_json_file` are left out. `App.LabelApp.ImportLabels` takes the document read, or None for a cancelled, unreadable or empty file. The export methods return the document instead of writing it.
- Malformed import documents are not modelled: missing keys, a `pivots` entry with the wrong shape, or a row that names a missing point. The `Document.Doc` datatype is always well formed, so the partial reset that a `KeyError` would leave after `reset_except_img` is not modelled either.
- DICOM and raster loading (`load_dcm_img`, `load_img`, `save_img`, the patient-info text and pixel spacing) are left out. `App.LabelApp.OpenImage` stands for `upload_img` once an image was read.
- `auto_add_points`, `add_real_point` and `add_new_real_point` are left out. They wrap an external point detector that is not part of this model.
- The right-button menu (`create_right_btn_menu`, `handle_right_btn_menu`), the mapping of widget to scene coordinates and the status-bar texts are left out. `App.LabelApp.ModifyIndex` is the menu's relabel action with the dialog's answer as a parameter. `App.LabelApp.HandleEvent` leaves out eventFilter's right-press branch: on a hit point, `handle_right_btn_menu` runs `erase_highlight` and sets the hover, so for a right press on a point the caller runs `App.LabelApp.EraseHighlight` before the menu's action.
- The floating-point geometry of module/utils.py (distance, midpoint, foot point, collinearity, on-segment, bounds) is uninterpreted. So are the constants `point_width` and `eps`.
- `QColor` is its name string. The colour list of `change_color` and the action list of `switch_mode` become the chosen value.
- Stored positions are values, not shared `QPointF` objects. The in-place `setX`/`setY` is a map update, and aliasing between a stored point and the event position is not modelled.
- `App.LabelApp.GetPointIndex`: among points at exactly the same smallest distance, the source returns the first in dictionary order. The contract says only that the result is nearest; dictionary order is not modelled.
- The handlers receive the hit-test result inside the `Modes.Event` value. `App.LabelApp.HandleEvent` computes it with `App.LabelApp.GetPointIndex`.
- `Zoom.Inc`, `Zoom.Dec`: the percent is an integer, so the float truncation of `int(self.img_size * 100 + 10)` is not modelled.
- `App.LabelApp.SetImgSizeSlider`: the slider's own limits of 50..200 are a widget property and are not enforced.
- Paths where the source would crash are totalised. This covers two `trigger_index` crashes: `indexs[1]` raises `IndexError` when two or more slots hold the picked value (with all three, `indexs[0]` raises first), and `highlight_points.remove` raises `KeyError` when its absolute value is not highlighted. It also covers the `self.points[...]` lookups of the handlers on indices that are not points. The model gives them a defined value (`Modes.AbsOf`, `Modes.Val`, `Modes.PosOf`); under `Modes.Inv` these paths do not occur.
- `App.LabelApp.ModifyIndex` and `App.LabelApp.MoveIndex` require, for an accepted answer, that the relabelled index is a point, because `self.points[index]` raises `KeyError` otherwise, and the requires excludes that crash. The source can reach it through the menu itself: the menu opens on a hit point, but runs `erase_highlight` first, which erases a point held in a negative slot. Right after the first circle-mode press on an empty spot, for example, the hit rim point is such a point. An accepted relabel of it then raises `KeyError`. `App.LabelApp.ModifyIndex`, `App.LabelApp.MoveIndex`, `App.LabelApp.RenameLines`, `App.LabelApp.RenameAngles` and `App.LabelApp.RenameCircles` also require `Relabel.KeysFreeOf`: line and angle keys canonical and no key naming the new index. On other graphs two keys can be rewritten to the same key, and the result then depends on the dictionary's iteration order, which is not modelled. Valid graphs and the graph a self-line relabel leaves meet it (`Relabel.ValidAllowsRelabel`, `Relabel.DanglingGraphRelabelsAgain`).
- `App.LabelApp.ExportPivots` requires every pivot to be a point, because `self.points[index]` raises `KeyError` otherwise. Integrity (`Annotation.Valid`) guarantees it.
- The relabel lemmas (`Relabel.MovedKeepsValid`, `Relabel.MovedBack`, `Relabel.RelabelRoundTrip`) assume a graph without self-lines. With a self-line the source leaves a dangling line, as `Relabel.RelabelOfSelfLineDangles` shows.
