/**
 * The annotation authoring session as a pure state machine: the state the
 * window keeps (qtannotator.py:44, 68-69, 82-83) and one transition per
 * event handler. The window class in module Annotator is proved to perform
 * exactly these transitions; the lemmas here state what the transitions
 * promise over whole gestures.
 */
module Authoring {
  import opened Wrappers
  import opened Geometry
  import opened Shapes
  import opened SceneGraph

  datatype Modifier = Control | Shift | Alt | Meta
  datatype Key = KeyZ | KeyS | KeyC | OtherKey
  datatype KeyEvent = KeyEvent(key: Key, modifiers: set<Modifier>)

  /** Ctrl+Z with no other modifier held (qtannotator.py:169). */
  predicate IsUndoChord(e: KeyEvent) {
    e.key == KeyZ && e.modifiers == {Control}
  }

  /**
   * tool      -- current_tool
   * color     -- selected_color
   * startPos  -- start_pos, unset until the first press
   * mouseDown -- mouse_key_down
   * current   -- current_item, the live preview
   * items     -- committed annotations in commit order; also the undo stack
   * scene     -- the scene's items in insertion order
   * nextId    -- the identity the next Qt item built will have
   */
  datatype State = State(
    tool: Tool,
    color: Color,
    startPos: Option<Point>,
    mouseDown: bool,
    current: Option<Item>,
    items: seq<Item>,
    scene: seq<Graphic>,
    nextId: nat)

  /**
   * What every reachable state satisfies: the selected colour is valid, a
   * drag has an anchor, the base image stays in the scene, every committed
   * item and the live preview are in the scene, the preview is not
   * committed, and no item in the scene has an identity not yet handed out.
   */
  ghost predicate Valid(s: State) {
    && s.color.IsValid()
    && (s.mouseDown ==> s.startPos.Some?)
    && BasePixmap in s.scene
    && Distinct(s.scene)
    && Distinct(s.items)
    && (forall it :: it in s.items ==> Drawn(it) in s.scene)
    && (s.current.Some? ==> s.mouseDown && Drawn(s.current.value) in s.scene && s.current.value !in s.items)
    && IdsIssued(s)
  }

  /** Every item in the scene was built before: its identity is below the next one to be handed out. */
  ghost predicate IdsIssued(s: State) {
    forall g :: g in s.scene && g.Drawn? ==> g.item.id < s.nextId
  }

  /** The state right after the window is built (qtannotator.py:30, 44, 68-69, 82-83). */
  function Initial(): (s: State)
    ensures Valid(s)
    ensures s.tool == EllipseTool && s.color == Red && !s.mouseDown && s.current == None
    ensures s.items == [] && s.scene == [BasePixmap]
  {
    State(EllipseTool, Red, None, false, None, [], [BasePixmap], 0)
  }

  /** Radio button toggled (qtannotator.py:85-95): exactly the chosen tool is active. */
  function SelectTool(s: State, t: Tool): (r: State)
    ensures r.tool == t && r.(tool := s.tool) == s
  {
    s.(tool := t)
  }

  /** Colour dialog closed with `chosen` (qtannotator.py:97-100); a cancelled dialog returns an invalid colour. */
  function SelectColor(s: State, chosen: Color): (r: State)
    ensures chosen.IsValid() ==> r.color == chosen
    ensures !chosen.IsValid() ==> r == s
    ensures r.(color := s.color) == s
  {
    if chosen.IsValid() then s.(color := chosen) else s
  }

  /**
   * Pointer pressed at `pos` (qtannotator.py:102-117). With the text tool
   * active, `text` and `ok` are the answer of the text prompt; any confirmed
   * answer, the empty text included, is committed at once. With any other
   * tool the press opens a drag. The prompt's answer is ignored then.
   */
  function Press(s: State, pos: Point, text: string, ok: bool): (r: State)
    ensures r.startPos == Some(pos) && r.tool == s.tool && r.color == s.color
    ensures s.tool != TextTool ==>
      r.mouseDown && r.current == None && r.items == s.items && r.scene == s.scene
    ensures s.tool == TextTool ==> r.mouseDown == s.mouseDown && r.current == s.current
    ensures s.tool == TextTool && ok ==>
      var note := Item(s.nextId, TextLabel(pos, text, s.color));
      r.items == s.items + [note] && r.scene == s.scene + [Drawn(note)]
    ensures s.tool == TextTool && !ok ==> r.items == s.items && r.scene == s.scene
  {
    var anchored := s.(startPos := Some(pos));
    if s.tool == TextTool then
      if ok then
        var note := Item(s.nextId, TextLabel(pos, text, s.color));
        anchored.(scene := s.scene + [Drawn(note)], items := s.items + [note], nextId := s.nextId + 1)
      else anchored
    else
      anchored.(mouseDown := true, current := None)
  }

  /**
   * A move can be handled: no drag is open, or the drag has its anchor and a
   * drawing tool is active. A drag continued after switching to the text
   * tool is outside the model.
   */
  predicate MoveDefined(s: State) {
    s.mouseDown ==> s.startPos.Some? && s.tool != TextTool
  }

  /** The scene with the live preview, if any, taken out. */
  function WithoutPreview(s: State): seq<Graphic> {
    if s.current.Some? then Without(s.scene, Drawn(s.current.value)) else s.scene
  }

  /**
   * Pointer moved to `end` (qtannotator.py:119-159). Outside a drag nothing
   * happens. During a drag the old preview leaves the scene and a new one,
   * built from the anchor, `end`, the tool and the colour as they are now,
   * is added on top and becomes the preview.
   */
  function Move(s: State, end: Point): (r: State)
    requires MoveDefined(s)
    ensures !s.mouseDown ==> r == s
    ensures r.items == s.items && r.tool == s.tool && r.color == s.color
    ensures r.startPos == s.startPos && r.mouseDown == s.mouseDown
    ensures s.mouseDown ==>
      r.current == Some(Item(s.nextId, PreviewShape(s.tool, s.startPos.value, end, s.color)))
    ensures s.mouseDown ==> r.scene == WithoutPreview(s) + [Drawn(r.current.value)]
  {
    if !s.mouseDown then s
    else
      var preview := Item(s.nextId, PreviewShape(s.tool, s.startPos.value, end, s.color));
      s.(scene := WithoutPreview(s) + [Drawn(preview)], current := Some(preview), nextId := s.nextId + 1)
  }

  /**
   * Pointer released (qtannotator.py:162-166): the drag ends and the preview,
   * if one was drawn, is committed. It is already in the scene, so the
   * scene does not change.
   */
  function Release(s: State): (r: State)
    ensures !r.mouseDown && r.current == None && r.scene == s.scene
    ensures r.items == s.items + (if s.current.Some? then [s.current.value] else [])
    ensures r.tool == s.tool && r.color == s.color && r.startPos == s.startPos
  {
    var committed := if s.current.Some? then s.items + [s.current.value] else s.items;
    s.(mouseDown := false, items := committed, current := None)
  }

  /** Undo (qtannotator.py:170-172): the last committed item leaves the stack and the scene. */
  function Undo(s: State): (r: State)
    ensures s.items == [] ==> r == s
    ensures s.items != [] ==>
      && r.items == s.items[..|s.items| - 1]
      && r.scene == Without(s.scene, Drawn(s.items[|s.items| - 1]))
    ensures r.(items := s.items, scene := s.scene) == s
  {
    if s.items == [] then s
    else
      var last := s.items[|s.items| - 1];
      s.(items := s.items[..|s.items| - 1], scene := Without(s.scene, Drawn(last)))
  }

  /**
   * Key pressed (qtannotator.py:168-176). Only Ctrl+Z changes the session;
   * Ctrl+S and Ctrl+C export a picture of the scene and leave it as it is.
   */
  function KeyPress(s: State, e: KeyEvent): (r: State)
    ensures IsUndoChord(e) ==> r == Undo(s)
    ensures !IsUndoChord(e) ==> r == s
  {
    if IsUndoChord(e) then Undo(s) else s
  }

  // ---------------------------------------------------------------------
  // Every transition keeps the session valid.

  lemma SelectToolKeepsValid(s: State, t: Tool)
    requires Valid(s)
    ensures Valid(SelectTool(s, t))
  {
  }

  lemma SelectColorKeepsValid(s: State, chosen: Color)
    requires Valid(s)
    ensures Valid(SelectColor(s, chosen))
  {
  }

  /** A fresh identity is not in the scene. */
  lemma FreshNotInScene(s: State, it: Item)
    requires Valid(s) && it.id == s.nextId
    ensures Drawn(it) !in s.scene && it !in s.items
    ensures s.current.Some? ==> s.current.value != it
  {
  }

  lemma PressKeepsValid(s: State, pos: Point, text: string, ok: bool)
    requires Valid(s)
    ensures Valid(Press(s, pos, text, ok))
  {
    if s.tool == TextTool && ok {
      var note := Item(s.nextId, TextLabel(pos, text, s.color));
      FreshNotInScene(s, note);
      DistinctCons(Drawn(note), []);
      DistinctAppend(s.scene, Drawn(note));
      DistinctAppend(s.items, note);
    }
  }

  lemma WithoutPreviewKeeps(s: State)
    requires Valid(s)
    ensures Distinct(WithoutPreview(s)) && BasePixmap in WithoutPreview(s)
    ensures forall it :: it in s.items ==> Drawn(it) in WithoutPreview(s)
    ensures forall g :: g in WithoutPreview(s) ==> g in s.scene
    ensures s.current.Some? ==> Drawn(s.current.value) !in WithoutPreview(s)
  {
  }

  lemma MoveKeepsValid(s: State, end: Point)
    requires Valid(s) && MoveDefined(s)
    ensures Valid(Move(s, end))
  {
    if s.mouseDown {
      var r := Move(s, end);
      var preview := r.current.value;
      FreshNotInScene(s, preview);
      WithoutPreviewKeeps(s);
      DistinctAppend(WithoutPreview(s), Drawn(preview));
    }
  }

  lemma ReleaseKeepsValid(s: State)
    requires Valid(s)
    ensures Valid(Release(s))
  {
    if s.current.Some? {
      DistinctAppend(s.items, s.current.value);
    }
  }

  lemma UndoKeepsValid(s: State)
    requires Valid(s)
    ensures Valid(Undo(s))
  {
    if s.items != [] {
      var n := |s.items|;
      var last := s.items[n - 1];
      var r := Undo(s);
      assert s.items == r.items + [last];
      DistinctDropLast(s.items);
      forall it | it in r.items ensures Drawn(it) in r.scene {
        var k :| 0 <= k < n - 1 && r.items[k] == it;
        assert s.items[k] == it;
      }
    }
  }

  lemma KeyPressKeepsValid(s: State, e: KeyEvent)
    requires Valid(s)
    ensures Valid(KeyPress(s, e))
  {
    UndoKeepsValid(s);
  }

  // ---------------------------------------------------------------------
  // Whole gestures.

  /** A drag that passes through the positions `ends`, one move each. */
  function Drag(s: State, ends: seq<Point>): (r: State)
    requires MoveDefined(s)
    decreases |ends|
  {
    if ends == [] then s else Drag(Move(s, ends[0]), ends[1..])
  }

  /** A move during a drag replaces the preview: what lies under it stays as it was. */
  lemma MoveKeepsUnderlay(s: State, end: Point)
    requires IdsIssued(s) && MoveDefined(s) && s.mouseDown
    ensures IdsIssued(Move(s, end))
    ensures WithoutPreview(Move(s, end)) == WithoutPreview(s)
  {
    var preview := Move(s, end).current.value;
    assert Drawn(preview) !in WithoutPreview(s);
    AddThenRemove(WithoutPreview(s), Drawn(preview));
  }

  /**
   * However many moves a drag makes, the scene afterwards holds exactly one
   * preview on top of what it held under the drag's earlier preview, that
   * preview is built from the last position only, and nothing is committed.
   */
  lemma {:induction false} DragShowsOnlyLatestPreview(s: State, ends: seq<Point>)
    requires IdsIssued(s) && MoveDefined(s) && s.mouseDown && ends != []
    ensures var r := Drag(s, ends);
      && r.items == s.items
      && r.current.Some?
      && r.current.value.shape == PreviewShape(s.tool, s.startPos.value, ends[|ends| - 1], s.color)
      && r.scene == WithoutPreview(s) + [Drawn(r.current.value)]
    decreases |ends|
  {
    var s1 := Move(s, ends[0]);
    MoveKeepsUnderlay(s, ends[0]);
    if |ends| == 1 {
      assert Drag(s1, ends[1..]) == s1;
    } else {
      DragShowsOnlyLatestPreview(s1, ends[1..]);
      assert ends[1..][|ends[1..]| - 1] == ends[|ends| - 1];
    }
  }

  /**
   * The tool is read at each move, not remembered from the press: switching
   * to another drawing tool in the middle of a drag makes the next preview a
   * shape of the new tool, still anchored at the press position.
   */
  lemma ToolReadAtMoveTime(s: State, first: Point, t: Tool, second: Point)
    requires s.mouseDown && s.startPos.Some? && s.tool != TextTool && t != TextTool
    ensures var r := Move(SelectTool(Move(s, first), t), second);
      r.current.Some? && ToolOf(r.current.value.shape) == t &&
      r.current.value.shape == PreviewShape(t, s.startPos.value, second, s.color)
  {
  }

  /** A press with a drawing tool followed by a release, with no move between, commits nothing. */
  lemma ClickCommitsNothing(s: State, pos: Point, text: string, ok: bool)
    requires s.tool != TextTool
    ensures Release(Press(s, pos, text, ok)).items == s.items
    ensures Release(Press(s, pos, text, ok)).scene == s.scene
  {
  }

  /**
   * A press with a drawing tool while a preview is on screen forgets the
   * preview without taking it out of the scene: it is neither the preview
   * nor committed any more, so neither the release nor any number of undos
   * after it removes it.
   */
  lemma PressDuringDragStrandsPreview(s: State, pos: Point, text: string, ok: bool)
    requires Valid(s) && s.current.Some? && s.tool != TextTool
    ensures var r := Press(s, pos, text, ok);
      Drawn(s.current.value) in r.scene && r.current == None && s.current.value !in Release(r).items
    ensures forall k: nat :: Drawn(s.current.value) in UndoTimes(Release(Press(s, pos, text, ok)), k).scene
  {
    var r := Press(s, pos, text, ok);
    forall k: nat
      ensures Drawn(s.current.value) in UndoTimes(Release(r), k).scene
    {
      UndoKeepsUncommitted(Release(r), Drawn(s.current.value), k);
    }
  }

  /** `g` is an item on screen that is not among the committed items. */
  ghost predicate Uncommitted(s: State, g: Graphic) {
    g in s.scene && g.Drawn? && g.item !in s.items
  }

  /** An item in the scene that is not committed survives any number of undos. */
  lemma {:induction false} UndoKeepsUncommitted(s: State, g: Graphic, k: nat)
    requires Uncommitted(s, g)
    ensures Uncommitted(UndoTimes(s, k), g)
    decreases k
  {
    if k > 0 {
      UndoKeepsUncommittedOnce(s, g);
      UndoKeepsUncommitted(Undo(s), g, k - 1);
    }
  }

  /** One undo takes out only a committed item. */
  lemma UndoKeepsUncommittedOnce(s: State, g: Graphic)
    requires Uncommitted(s, g)
    ensures Uncommitted(Undo(s), g)
  {
    if s.items != [] {
      assert g != Drawn(s.items[|s.items| - 1]);
      assert s.items == Undo(s).items + [s.items[|s.items| - 1]];
    }
  }

  /** Undoing right after a drag's release takes back exactly what the release committed. */
  lemma UndoRevertsDragCommit(s: State, end: Point)
    requires Valid(s) && s.mouseDown && s.tool != TextTool
    ensures Undo(Release(Move(s, end))).items == s.items
    ensures Undo(Release(Move(s, end))).scene == WithoutPreview(s)
  {
    var m := Move(s, end);
    var preview := m.current.value;
    FreshNotInScene(s, preview);
    WithoutPreviewKeeps(s);
    AddThenRemove(WithoutPreview(s), Drawn(preview));
    assert (s.items + [preview])[..|s.items|] == s.items;
  }

  /** Undoing right after a confirmed text prompt removes the label again. */
  lemma UndoRevertsTextCommit(s: State, pos: Point, text: string)
    requires Valid(s) && s.tool == TextTool
    ensures Undo(Press(s, pos, text, true)).items == s.items
    ensures Undo(Press(s, pos, text, true)).scene == s.scene
  {
    var note := Item(s.nextId, TextLabel(pos, text, s.color));
    FreshNotInScene(s, note);
    AddThenRemove(s.scene, Drawn(note));
    assert (s.items + [note])[..|s.items|] == s.items;
  }

  /** `k` undos in a row. */
  function UndoTimes(s: State, k: nat): State
    decreases k
  {
    if k == 0 then s else UndoTimes(Undo(s), k - 1)
  }

  /** Undo is last-in first-out: `k` undos leave the first |items| - k committed items, in order. */
  lemma {:induction false} UndoIsLifo(s: State, k: nat)
    requires k <= |s.items|
    ensures UndoTimes(s, k).items == s.items[..|s.items| - k]
    ensures UndoTimes(s, k).current == s.current
    decreases k
  {
    if k == 0 {
      assert s.items[..|s.items|] == s.items;
    } else {
      var p := Undo(s);
      UndoIsLifo(p, k - 1);
      assert p.items[..|p.items| - (k - 1)] == s.items[..|s.items| - k];
    }
  }

  /** Any number of undos keeps the session valid. */
  lemma {:induction false} UndoTimesKeepsValid(s: State, k: nat)
    requires Valid(s)
    ensures Valid(UndoTimes(s, k))
    decreases k
  {
    if k > 0 {
      UndoKeepsValid(s);
      UndoTimesKeepsValid(Undo(s), k - 1);
    }
  }

  /** Undo with nothing committed changes nothing, however often it is repeated. */
  lemma {:induction false} UndoOnEmptyIsNoOp(s: State, k: nat)
    requires s.items == []
    ensures UndoTimes(s, k) == s
    decreases k
  {
    if k > 0 {
      UndoOnEmptyIsNoOp(s, k - 1);
    }
  }

  /**
   * A session from start-up: an ellipse dragged from (10, 10) to (50, 50),
   * then a guideline dragged from (0, 0) to (80, 5), which snaps to the
   * horizontal line through (0, 0), then Ctrl+Z, which takes the guideline
   * back and leaves the ellipse.
   */
  lemma ExampleSession()
    ensures var drawn := Release(Move(Press(SelectTool(Initial(), EllipseTool), Point(10.0, 10.0), "", false), Point(50.0, 50.0)));
      var guided := Move(Press(SelectTool(drawn, GuidelineTool), Point(0.0, 0.0), "", false), Point(80.0, 5.0));
      var undone := KeyPress(Release(guided), KeyEvent(KeyZ, {Control}));
      && drawn.items == [Item(0, Ellipse(Rect(Point(10.0, 10.0), Point(50.0, 50.0)), Pen(Red, 3, SolidLine)))]
      && guided.current == Some(Item(1, Guideline(Line(Point(80.0, 0.0), Point(0.0, 0.0)), Pen(Red, 2, DashLine))))
      && |Release(guided).items| == 2
      && undone.items == drawn.items
      && undone.scene == [BasePixmap, Drawn(drawn.items[0])]
  {
    var ellipse := Item(0, Ellipse(Rect(Point(10.0, 10.0), Point(50.0, 50.0)), Pen(Red, 3, SolidLine)));
    var drawn := Release(Move(Press(SelectTool(Initial(), EllipseTool), Point(10.0, 10.0), "", false), Point(50.0, 50.0)));
    assert drawn.scene == [BasePixmap, Drawn(ellipse)];
    var guided := Move(Press(SelectTool(drawn, GuidelineTool), Point(0.0, 0.0), "", false), Point(80.0, 5.0));
    var guide := guided.current.value;
    assert guided.scene == [BasePixmap, Drawn(ellipse)] + [Drawn(guide)];
    AddThenRemove([BasePixmap, Drawn(ellipse)], Drawn(guide));
  }
}
