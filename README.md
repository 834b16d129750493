# Matches: a verified model of the canvas scene

This project models the scene logic of a small browser toy. The toy places
"match" rectangles on a 1000×500 canvas. A user can add, select, drag,
rotate, save and load them. The model covers everything `main.js` does
beyond drawing and browser glue.

- **`MatchModel`** (`match.dfy`) models one match.
  - The `Match` class has the fields the source updates in place: position, size, rotated flag, selected and dragged flags, and drag offset.
  - `MatchState` is a snapshot of those fields as a value.
  - `Contains` is the inclusive hit test.
  - `Rotate` swaps width and height and toggles the flag.
  - `Placed` is the state the constructor produces. JavaScript's `x || canvas.width / 2` sends a coordinate of 0 to the canvas centre.
- **`SceneSpec`** (`scene_spec.dfy`) models the scene as a value, a `seq<MatchState>` in z-order (last is topmost). It has one pure function per store operation:
  - the hit test `TopmostHit`;
  - the `filter(...)[0]` lookups `FirstWith`;
  - add (`Appended` / `AddMatches`), select, rotate-selected, drag start, move, drop, save and load.

  The lemmas state what these functions promise and how they fit together.
- **`SceneStore`** (`manager.dfy`) models `MatchesManager` as a class.
  - It holds `matches: seq<Match>`, a sequence of object references, and its methods change those objects in place.
  - `Valid()` says no object appears twice. `Scene()` reads the objects' current states.
  - The store operations that the buttons and listeners call are each proved to turn `old(Scene())` into the matching `SceneSpec` function of it: `AddMatches`, `SelectMatchAtPoint`, `RotateSelectedMatch`, `DragMatchAtPoint`, `DropMatch` and `LoadMatches`.
  - The lower-level helpers have no `SceneSpec` function of their own. `SelectMatch` and `DragMatch` state their effect entry by entry, and `AddMatch` and `ClearMatches` state the new scene directly.
- **`Interaction`** (`controller.dfy`) models the canvas listeners as a two-phase machine.
  - In `Idle` only mousedown is attached. In `Pressed`, mousemove and mouseup are attached. Keydown and contextmenu stay attached in both phases.
  - `Step` and `Run` give the meaning of one event and of a trace of events.
  - `CanvasController.Handle` is proved to follow `Step`.
  - `RunKeepsConsistent` proves that, for every event trace, at most one match is selected and at most one is dragged, and none is dragged while Idle.

Three points of `main.js` that shape the model:

- **Save format.** `saveMatches` stores the *unrotated* size: `w` and `h` are swapped back when the match is rotated (`main.js:168-169`). `loadMatches` re-rotates after restoring that size, so a rotated match reloads with exactly the width and height it was saved with. `SceneSpec.LoadSave` proves the round trip.
- **mousedown on empty canvas.** mousedown enters the pressed phase even when it hits nothing (`main.js:232-234`). The moves and the release that follow then change nothing (`Interaction.PressOnNothing`).
- **No delete.** `main.js` binds no delete key and has no operation that removes a single match.

Coordinates are unbounded integers. The source only adds, subtracts and compares them, so nothing depends on their width. Cursor coordinates are taken as already relative to the canvas. Persistent storage is a parameter: `LoadMatches` receives the stored record list, or `None` when nothing is stored.

## Model

| member | source | states |
|---|---|---|
| `MatchModel.Placed` | main.js:12-21 | a new match is 10×150, unrotated, unselected, undragged, offset (0,0); a nonzero coordinate is kept, 0 becomes the canvas centre (500, 250), so no coordinate is ever 0 |
| `MatchModel.Match.constructor` | main.js:12-21 | the constructed object's state is exactly `Placed(x, y)` |
| `MatchModel.MatchState.Rotate` | main.js:40-47 | rotation toggles the flag, swaps width and height, and changes nothing else |
| `MatchModel.Match.Rotate` | main.js:40-47 | the object's new state is its old state rotated |
| `MatchModel.RotateTwice` | main.js:40-47 | rotating twice restores width, height and flag exactly; x and y never move |
| `MatchModel.ContainsEdges` | main.js:53-59 | all four corners of a rectangle are inside it; a point beyond any edge is outside |
| `MatchModel.RotateKeepsAnchor` | main.js:40-47 | rotation keeps the top-left anchor, so the rectangle turns about its corner rather than its centre |
| `SceneSpec.TopmostHit` | main.js:152-161 | the result is an index whose match contains the point with no higher match containing it; `None` exactly when no match contains the point |
| `SceneSpec.TopmostHitUnique` | main.js:152-161 | any index that contains the point with nothing above it containing it is the hit-test answer |
| `SceneSpec.TopmostWinsOverlap` | main.js:152-161 | a match added on top that contains the point wins over every earlier one |
| `SceneSpec.HitIgnoresMissAbove` | main.js:152-161 | adding a match that misses the point does not change the hit-test answer |
| `SceneSpec.FirstWith` | main.js:139-145 | the `draggedMatch` / `selectedMatch` lookup returns the lowest index with the flag set, or `None` exactly when no match has it |
| `SceneSpec.Appended` | main.js:78-90 | appending n matches gives exactly n more entries and leaves the earlier ones unchanged |
| `SceneSpec.AppendedAt` | main.js:78-90 | each new match is 10×150 with no flags set; each one after the first sits at the previous match's position plus 5 on both axes, with a 0 sent to the centre; in an empty scene the first is at the centre |
| `SceneSpec.AddMatchesCount` | main.js:78-90 | `addMatches(count)` adds exactly count matches (1 for 0, none for a negative count) and keeps the existing prefix |
| `SceneSpec.AppendedCascade` | main.js:78-90 | from a last match at non-negative coordinates, or the centre of an empty canvas, the k-th new match is exactly 5k further along each axis |
| `SceneSpec.AddThreeToEmpty` | main.js:78-90 | three matches added to an empty canvas sit at (500,250), (505,255) and (510,260), and every one of them is 10×150 |
| `SceneSpec.CascadeHitsZero` | main.js:13-14 | after a match at x = −5, the next match is placed at the centre rather than at x = 0 |
| `SceneSpec.AppendedKeepsWellFormed` | main.js:78-95 | adding matches keeps at most one selected and at most one dragged match, and all sizes positive |
| `SceneSpec.SelectAtPoint` | main.js:97-106 | only selected flags change; on a miss nothing changes; on a hit exactly the topmost hit is selected |
| `SceneSpec.SelectTwice` | main.js:97-106 | selecting at p and then at a point q that hits leaves exactly one match selected: q's topmost hit |
| `SceneSpec.SelectKeepsWellFormed` | main.js:97-106 | selection keeps the scene well formed |
| `SceneSpec.RotateSelected` | main.js:108-114 | with nothing selected nothing changes; otherwise only the first selected match is rotated and every other entry stays the same |
| `SceneSpec.FirstWithAfterUpdate` | main.js:139-145 | changing a match without changing the flag leaves the flag lookup's answer the same |
| `SceneSpec.RotateSelectedTwice` | main.js:108-114 | rotating the selection twice restores the scene exactly |
| `SceneSpec.RotateSelectedKeepsWellFormed` | main.js:108-114 | rotating the selection keeps the scene well formed |
| `SceneSpec.StartDrag` | main.js:116-130 | on a miss nothing changes; on a hit only the topmost hit changes: it is marked dragged, with offset = point − position |
| `SceneSpec.StartDragFindsHit` | main.js:116-145 | starting a drag in a scene with nothing dragged makes the hit match the one and only dragged match |
| `SceneSpec.MoveDragged` | main.js:244-247 | with nothing dragged nothing changes; otherwise the first dragged match moves to cursor − offset and nothing else changes |
| `SceneSpec.DragFollowsCursor` | main.js:237-247 | after a drag starts at p, moving to q shifts the match by exactly q − p; moving back to p leaves it where it was; other matches do not change |
| `SceneSpec.MoveDraggedKeepsWellFormed` | main.js:244-247 | moving the dragged match keeps the scene well formed |
| `SceneSpec.Drop` | main.js:132-137 | with nothing dragged nothing changes; otherwise only the first dragged match changes: it is undragged and its offset is reset to (0,0) |
| `SceneSpec.DropClearsDrag` | main.js:132-137 | in a scene with at most one dragged match, a drop leaves none dragged |
| `SceneSpec.DropKeepsWellFormed` | main.js:132-137 | a drop keeps the scene well formed and leaves nothing dragged |
| `SceneSpec.IdleMovesNothing` | main.js:132-137 | with nothing dragged, both a move and a drop leave the scene unchanged |
| `SceneSpec.ToRecord` | main.js:165-171 | a record keeps the position and the flag, and stores the size the match has once it is un-rotated |
| `SceneSpec.FromRecord` | main.js:183-188 | a rebuilt match has the record's flag and nonzero coordinates (0 goes to the centre), no selection and no drag; un-rotating it gives the record's size |
| `SceneSpec.LoadSave` | main.js:163-191 | load after save keeps count, order, width, height and rotation; it keeps x and y except that 0 becomes the centre; it resets selection, drag and offset |
| `SceneSpec.LoadSaveExact` | main.js:163-191 | a scene with no zero coordinate and no selection or drag comes back unchanged |
| `SceneSpec.SaveLoad` | main.js:163-191 | records with nonzero coordinates survive load then save unchanged |
| `SceneSpec.ZeroReloadsAtCentre` | main.js:183 | a match saved at x = 0 reloads at x = 500 |
| `SceneSpec.LoadKeepsWellFormed` | main.js:176-191 | for any stored records, no loaded match is selected or dragged; if every stored size is positive, the loaded scene is well formed |
| `SceneSpec.LoadSaveKeepsWellFormed` | main.js:176-191 | reloading a saved well-formed scene gives a well-formed scene with nothing selected or dragged |
| `SceneStore.MatchesManager.constructor` | main.js:63-66 | the store starts with an empty scene |
| `SceneStore.MatchesManager.AddMatches` | main.js:78-90 | the new scene is `AddMatches(old scene, count)`, and the old objects stay a prefix of the sequence |
| `SceneStore.MatchesManager.NewMatchAfterLast` | main.js:82-87 | the loop body creates a fresh match in the state `NextMatch` gives for the current scene |
| `SceneStore.MatchesManager.AddMatch` | main.js:92-95 | the object is pushed on top and the scene gains its state at the end |
| `SceneStore.MatchesManager.GetMatchContainsPoint` | main.js:152-161 | the backwards scan returns the object at `TopmostHit`'s index, or null on a miss; it changes nothing |
| `SceneStore.MatchesManager.SelectMatchAtPoint` | main.js:97-100 | the new scene is `SelectAtPoint(old scene, p)` |
| `SceneStore.MatchesManager.SelectMatch` | main.js:102-106 | null changes nothing; otherwise every match's selected flag becomes "is this `m`", and `m` itself ends selected |
| `SceneStore.MatchesManager.RotateSelectedMatch` | main.js:108-114 | the new scene is `RotateSelected(old scene)` |
| `SceneStore.MatchesManager.DragMatchAtPoint` | main.js:116-125 | the new scene is `StartDrag(old scene, p)` |
| `SceneStore.MatchesManager.DragMatch` | main.js:127-130 | null changes nothing; otherwise only the dragged flag of `m` is set |
| `SceneStore.MatchesManager.DropMatch` | main.js:132-137 | the new scene is `Drop(old scene)` |
| `SceneStore.MatchesManager.DraggedMatch` | main.js:139-141 | null exactly when no match is dragged; otherwise a dragged match with no dragged match below it in the z-order |
| `SceneStore.MatchesManager.SelectedMatch` | main.js:143-145 | null exactly when no match is selected; otherwise a selected match with no selected match below it in the z-order |
| `SceneStore.MatchesManager.ClearMatches` | main.js:147-150 | the scene becomes empty |
| `SceneStore.MatchesManager.SaveMatches` | main.js:163-172 | one record per object, in order, each the `ToRecord` of its state |
| `SceneStore.MatchesManager.LoadMatches` | main.js:176-191 | nothing stored: nothing changes; otherwise the scene becomes `Load(records)`, built from fresh objects |
| `Interaction.Step` | main.js:213-265 | after one event a press is pending exactly when the event is a mousedown, or a press was pending and the event is not a mouseup; an event whose listener is not attached changes no match; no event adds or removes a match |
| `Interaction.Run` | main.js:213-265 | a trace of events never changes how many matches there are |
| `Interaction.SelectKeepsHit` | main.js:229-230 | selecting does not change the hit test, so the mousedown drag hits the match it just selected |
| `Interaction.PressKeepsWellFormed` | main.js:222-235 | a mousedown from Idle keeps at most one selected and at most one dragged match |
| `Interaction.StepKeepsConsistent` | main.js:213-265 | every event keeps the scene well formed and leaves nothing dragged when the phase is Idle |
| `Interaction.RunKeepsConsistent` | main.js:213-265 | for every trace of events, at most one match is ever selected or dragged, and none is dragged while Idle |
| `Interaction.ThreeSteps` | main.js:213-250 | press, move, release from Idle runs the three listeners in turn and ends in Idle |
| `Interaction.PressOnMatch` | main.js:222-235 | a mousedown on a match enters Pressed with that topmost hit the only selected and the only dragged match |
| `Interaction.PressOnNothing` | main.js:213-250 | a mousedown that hits nothing enters Pressed without changing the scene, and the move and release after it change nothing |
| `Interaction.DragSession` | main.js:213-250 | press at p on a match, move to q, release: the match moves by q − p, stays the only selected match, is no longer dragged, and its offset is (0,0) |
| `Interaction.CanvasController.constructor` | main.js:267-269 | the controller starts in Idle with an empty, consistent scene |
| `Interaction.CanvasController.Handle` | main.js:213-269 | an event whose listener is attached runs it; any other event changes nothing; phase and scene follow `Step` |
| `Interaction.CanvasController.MouseDown` | main.js:222-235 | select at the point, start a drag at the point, enter Pressed |
| `Interaction.CanvasController.MouseMove` | main.js:237-250 | the new scene is `MoveDragged(old scene, q)` |
| `Interaction.CanvasController.MouseUp` | main.js:213-220 | enter Idle; the new scene is `Drop(old scene)` |
| `Interaction.CanvasController.KeyDown` | main.js:252-260 | key code 82 rotates the selection; any other key changes nothing |
| `Interaction.CanvasController.ContextMenu` | main.js:262-265 | the new scene is `RotateSelected(old scene)` |

## Left out

- Drawing is not modelled: `draw`, `_drawHead`, `drawMatches` and the `clearRect` calls. They only paint the canvas.
- DOM lookups, canvas sizing, button wiring, `addEventListener`/`removeEventListener` and `preventDefault` are not modelled. Listener attachment appears only as the phase.
- `localStorage` and JSON are not modelled. `SaveMatches` returns the record list and `LoadMatches` takes it as a parameter. An empty or missing stored string is `None`.
- `getBoundingClientRect` is not modelled. Cursor coordinates arrive already relative to the canvas.
- Floating-point coordinates and string-to-number coercion of the count input are not modelled. Coordinates and counts are integers, and `new Match()` with no arguments is `new Match(0, 0)`, which behaves the same because both are falsy.
- The `matches` getter, which returns the internal array, is not modelled.
- The `isRotated` getter (`main.js:49-51`) only returns the rotated flag. The model reads that field directly, as `MatchState.rotated` in `ToRecord`.
- `SceneStore.MatchesManager.AddMatch` requires that the pushed object is not already in the scene. Every caller in the source pushes a freshly constructed match. Pushing the same object twice, which would alias two entries, is not modelled.
- `SceneStore.MatchesManager.NewMatchAfterLast` is the loop body of `addMatches` split into its own method. It keeps the loop's proof small, and the behaviour is unchanged.
