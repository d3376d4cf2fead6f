# qtannotator: the annotation authoring session

qtannotator is a small PyQt window for drawing annotations over a raster
image: an ellipse, an arrow, an axis-snapped dashed guideline, a rectangle or
a text label, with Ctrl+Z to take back the most recent one. This project
models the part of `MainWindow` that has logic in it, the authoring session:

- `Geometry`: scene points, segments, and the guideline's axis snap.
- `Shapes`: the colour, pen, tool and per-tool shape values, and the preview
  each drawing tool builds from the press position, the pointer position and
  the selected colour.
- `SceneGraph`: the graphics scene as the ordered list of its items (the base
  image plus annotation items), with `removeItem`. Qt items are objects with
  identity; the model gives each item an id so that two items with equal
  geometry stay distinct.
- `Authoring`: the session as a pure state machine, one transition per event
  handler, the invariant every reachable state satisfies, and the lemmas about
  whole gestures (a drag of any length, a click, undoing a commit, repeated
  undo, and a worked session: an ellipse drag, a guideline drag that snaps to
  the horizontal, and an undo).
- `Annotator`: the class `MainWindow` with the handlers' fields and one method
  per handler, updating the fields step by step as the handlers do. Each
  method is proved to perform the matching `Authoring` transition and to keep
  the invariant.

Positions arrive already in scene coordinates. The colour dialog's result and
the text prompt's `(text, ok)` answer are parameters of the methods that use
them. Every press is handled alike whatever the mouse button, as in the
handler. Three behaviours of the handlers are kept as the code has them:

- the tool is read at every move (`ToolReadAtMoveTime`), not remembered from
  the press;
- a confirmed text prompt commits a label even when the text is empty;
- ellipse and rectangle bounds keep the press position as the top-left corner
  and the pointer position as the bottom-right corner, without normalising.

## Model

| member | source | states |
|---|---|---|
| `Geometry.SnapEnd` | qtannotator.py:145-150 | the guideline end is one of the two axis projections of the pointer through the anchor; the segment to the anchor is axis-aligned and keeps the larger of the two displacements; a tie snaps vertically |
| `Geometry.SnapHorizontalIff` | qtannotator.py:147-150 | whenever the pointer is away from the anchor, the snap is horizontal exactly when the horizontal displacement is strictly larger |
| `Shapes.PreviewShape` | qtannotator.py:124-158 | the preview is the shape of the active tool, in the selected colour; ellipse and rectangle bounds have corners exactly the anchor and the pointer, in that order; the arrow runs from anchor to pointer with its head's tip at the pointer; the guideline runs from the snapped end to the anchor and is axis-aligned; widths 3, 3, 2, 1, only the guideline dashed |
| `Shapes.TextLabel` | qtannotator.py:107-112 | a text label at the press position, with the prompt's text, the selected colour and pixel size 30 |
| `SceneGraph.Without` | qtannotator.py:123 | removing an item keeps exactly the other items, removes one entry when the item was present in a scene without duplicates, and changes nothing when it was absent |
| `SceneGraph.AddThenRemove` | qtannotator.py:159 | adding a new item on top and removing it again gives back the scene |
| `Authoring.Initial` | qtannotator.py:68-83 | at start-up the ellipse tool and red are selected, no drag is open, nothing is committed, the scene holds only the base image, and the invariant holds |
| `Authoring.SelectTool` | qtannotator.py:85-95 | the chosen tool becomes the one active tool and nothing else changes |
| `Authoring.SelectColor` | qtannotator.py:97-100 | a valid colour becomes the selected colour; an invalid one (a cancelled dialog) changes nothing |
| `Authoring.Press` | qtannotator.py:102-117 | the anchor is recorded; a drawing tool opens a drag with no preview and leaves items and scene alone; with the text tool a confirmed prompt appends one label to both the items and the scene, and a cancelled one adds nothing; the text tool never opens a drag |
| `Authoring.Move` | qtannotator.py:119-159 | outside a drag nothing changes; during a drag the old preview leaves the scene and the freshly built one goes on top and becomes the preview; the items never change |
| `Authoring.Release` | qtannotator.py:162-166 | the drag ends with no preview; the preview, if any, is appended to the items; the scene is unchanged |
| `Authoring.Undo` | qtannotator.py:169-172 | with items, the last one leaves the items and the scene and nothing else changes; with none, nothing changes |
| `Authoring.KeyPress` | qtannotator.py:168-176 | Ctrl+Z alone undoes; every other key leaves the session as it is |
| `Authoring.SelectToolKeepsValid` | qtannotator.py:85-95 | selecting a tool keeps the session invariant |
| `Authoring.SelectColorKeepsValid` | qtannotator.py:97-100 | selecting a colour keeps the invariant, so the selected colour is always valid |
| `Authoring.PressKeepsValid` | qtannotator.py:102-117 | a press keeps the invariant: a committed label is a new item, present once in the scene and once in the items |
| `Authoring.MoveKeepsValid` | qtannotator.py:119-159 | a move keeps the invariant: the preview is in the scene exactly once and is not committed |
| `Authoring.ReleaseKeepsValid` | qtannotator.py:162-166 | a release keeps the invariant: every committed item is in the scene |
| `Authoring.UndoKeepsValid` | qtannotator.py:169-172 | an undo keeps the invariant: the remaining items and the preview stay in the scene |
| `Authoring.KeyPressKeepsValid` | qtannotator.py:168-176 | a key press keeps the invariant |
| `Authoring.MoveKeepsUnderlay` | qtannotator.py:122-159 | one move during a drag changes only the preview: the scene without the preview is the same before and after, and every item in the scene still has an identity already handed out |
| `Authoring.DragShowsOnlyLatestPreview` | qtannotator.py:119-159 | after any positive number of moves in one drag the scene is what it was without the earlier preview plus exactly one preview on top, built from the last position only, and nothing is committed |
| `Authoring.ToolReadAtMoveTime` | qtannotator.py:124-158 | switching drawing tool in the middle of a drag makes the next preview a shape of the new tool, still anchored at the press |
| `Authoring.ClickCommitsNothing` | qtannotator.py:162-166 | a press with a drawing tool followed by a release with no move commits nothing and leaves the scene as it was |
| `Authoring.PressDuringDragStrandsPreview` | qtannotator.py:115-117 | a second press during a drag forgets the preview without taking it out of the scene; the release that follows does not commit it, and it is still in the scene after any number of undos after that release |
| `Authoring.UndoKeepsUncommitted` | qtannotator.py:169-172 | an item in the scene that is not among the committed items is still in the scene after any number of undos |
| `Authoring.UndoRevertsDragCommit` | qtannotator.py:162-172 | undo right after a drag's release restores the items and leaves the scene without any preview of that drag |
| `Authoring.UndoRevertsTextCommit` | qtannotator.py:104-114 | undo right after a confirmed text prompt restores the items and the scene |
| `Authoring.UndoIsLifo` | qtannotator.py:169-172 | k undos leave the first n - k committed items in their order, and the preview untouched |
| `Authoring.UndoTimesKeepsValid` | qtannotator.py:169-172 | any number of undos keeps the invariant |
| `Authoring.UndoOnEmptyIsNoOp` | qtannotator.py:170 | undo with nothing committed changes nothing, however often repeated |
| `Authoring.ExampleSession` | qtannotator.py:102-172 | from start-up, an ellipse drag from (10, 10) to (50, 50) commits one ellipse with those corners and a solid width-3 red pen; a guideline drag from (0, 0) to (80, 5) previews the dashed width-2 line from (80, 0) to (0, 0); releasing and pressing Ctrl+Z leaves only the ellipse in the items and the base image and ellipse in the scene |
| `Annotator.MainWindow.constructor` | qtannotator.py:68-83 | the window starts in the initial session and satisfies the invariant |
| `Annotator.MainWindow.NewItem` | qtannotator.py:109-155 | building a Qt item (a text, ellipse, line, group or rectangle item) gives an item for the shape with the next unused identity and moves the counter past it; since every item in the scene has an identity below the counter, the new item is none of them |
| `Annotator.MainWindow.AddItem` | qtannotator.py:159 | `scene.addItem` puts the item on top of the scene and changes nothing else |
| `Annotator.MainWindow.RemoveItem` | qtannotator.py:123 | `scene.removeItem` leaves the scene as `Without` gives it |
| `Annotator.MainWindow.SetCurrentTool` | qtannotator.py:85-95 | performs `SelectTool` on the fields and keeps the invariant |
| `Annotator.MainWindow.SelectColor` | qtannotator.py:97-100 | performs `SelectColor` on the fields and keeps the invariant |
| `Annotator.MainWindow.MousePressEvent` | qtannotator.py:102-117 | performs `Press` on the fields and keeps the invariant |
| `Annotator.MainWindow.MouseMoveEvent` | qtannotator.py:119-159 | performs `Move` on the fields, keeps the invariant, and touches no field when no drag is open |
| `Annotator.MainWindow.RedrawPreview` | qtannotator.py:122-159 | during a drag, taking the old preview off the scene and drawing the new one on top performs `Move` on the fields |
| `Annotator.MainWindow.MouseReleaseEvent` | qtannotator.py:162-166 | performs `Release` on the fields and keeps the invariant |
| `Annotator.MainWindow.KeyPressEvent` | qtannotator.py:168-176 | performs `KeyPress` on the fields and keeps the invariant |

## Left out

- Widget construction, layout, radio buttons, the colour and save buttons, signal wiring and the program entry point (qtannotator.py:15-65, 73-81, 200-204): user-interface plumbing. A tool selection arrives as the tool itself; a toggle signal that fires twice per switch selects the same tool twice, which `SelectTool` makes harmless.
- The colour dialog and the text prompt (qtannotator.py:98, 105): modal host dialogs; their results are method parameters.
- `view.mapToScene` (qtannotator.py:103, 121): a view transform; positions are taken as scene coordinates.
- The two back vertices of the arrow head (qtannotator.py:132-138): they need floating-point normalisation, rounding to integer points and a rotation by 15 degrees. Only the head's tip and pen are modelled.
- The transparent brush of ellipse and rectangle items, and the label's font apart from its pixel size: drawing attributes with no effect on the session.
- Export to a file or the clipboard (qtannotator.py:177-197): rasterisation, a file dialog and the clipboard. Ctrl+S and Ctrl+C are modelled as leaving the session unchanged.
- Annotator.MainWindow.MouseMoveEvent: requires that a drag is not continued after switching to the text tool. No branch builds a preview then and the handler re-adds its stale item or None, Qt behaviour the model does not describe. `Authoring.Move` has the same precondition.
- The `undo_stack` field (qtannotator.py:70): it is never used; the items list is the undo stack.
- Floating point: the model computes with exact real numbers where the code rounds to doubles. The differences the snap compares (qtannotator.py:145) and the widths and heights `QRectF(p1, p2)` stores for ellipse and rectangle bounds (qtannotator.py:125, 155) are rounded in the code. So near a tie the code can snap the other way than the model, and the stored corners can differ from the anchor and the pointer in the last bit.
