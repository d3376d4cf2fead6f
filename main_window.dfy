/**
 * The annotation window (class MainWindow of qtannotator.py) reduced to its
 * authoring session: the fields the event handlers update and one method per
 * handler. Positions arrive already mapped to scene coordinates, and the
 * answers of the colour dialog and the text prompt arrive as parameters.
 * Every method is proved to perform the transition of the same name in
 * module Authoring, whose properties are proved there.
 */
module Annotator {
  import opened Wrappers
  import opened Geometry
  import opened Shapes
  import opened SceneGraph
  import opened Authoring

  class MainWindow {
    var currentTool: Tool
    var selectedColor: Color
    var startPos: Option<Point>
    var mouseKeyDown: bool
    var currentItem: Option<Item>
    var items: seq<Item>
    var scene: seq<Graphic>
    /** Stands for Qt allocating a new item object: the identity the next item gets. */
    var nextId: nat

    /** The session the fields hold. */
    function Snapshot(): State
      reads this
    {
      State(currentTool, selectedColor, startPos, mouseKeyDown, currentItem, items, scene, nextId)
    }

    ghost predicate Valid()
      reads this
    {
      Authoring.Valid(Snapshot())
    }

    /** qtannotator.py:30, 44, 68-69, 82-83: the scene holds only the image; the ellipse tool and red are selected. */
    constructor ()
      ensures Valid() && Snapshot() == Initial()
    {
      currentTool := EllipseTool;
      selectedColor := Red;
      startPos := None;
      mouseKeyDown := false;
      currentItem := None;
      items := [];
      scene := [BasePixmap];
      nextId := 0;
    }

    /** A new graphics item for `shape`, distinct from every item built before. */
    method NewItem(shape: Shape) returns (item: Item)
      modifies this`nextId
      ensures item == Item(old(nextId), shape) && nextId == old(nextId) + 1
    {
      item := Item(nextId, shape);
      nextId := nextId + 1;
    }

    /** `scene.addItem`: the item goes on top. */
    method AddItem(item: Item)
      modifies this`scene
      ensures scene == old(scene) + [Drawn(item)]
    {
      scene := scene + [Drawn(item)];
    }

    /** `scene.removeItem`. */
    method RemoveItem(item: Item)
      modifies this`scene
      ensures scene == Without(old(scene), Drawn(item))
    {
      scene := Without(scene, Drawn(item));
    }

    method SetCurrentTool(tool: Tool)
      requires Valid()
      modifies this
      ensures Valid()
      ensures Snapshot() == SelectTool(old(Snapshot()), tool)
    {
      currentTool := tool;
      SelectToolKeepsValid(old(Snapshot()), tool);
    }

    /** `chosen` is what the colour dialog returned. */
    method SelectColor(chosen: Color)
      requires Valid()
      modifies this
      ensures Valid()
      ensures Snapshot() == Authoring.SelectColor(old(Snapshot()), chosen)
    {
      if chosen.IsValid() {
        selectedColor := chosen;
      }
      SelectColorKeepsValid(old(Snapshot()), chosen);
    }

    /** `text` and `ok` are the text prompt's answer, consulted only when the text tool is active. */
    method MousePressEvent(pos: Point, text: string, ok: bool)
      requires Valid()
      modifies this
      ensures Valid()
      ensures Snapshot() == Press(old(Snapshot()), pos, text, ok)
    {
      startPos := Some(pos);
      if currentTool == TextTool {
        if ok {
          var note := NewItem(TextLabel(pos, text, selectedColor));
          AddItem(note);
          items := items + [note];
        }
      } else {
        mouseKeyDown := true;
        currentItem := None;
      }
      PressKeepsValid(old(Snapshot()), pos, text, ok);
    }

    method MouseMoveEvent(endPos: Point)
      requires Valid()
      requires mouseKeyDown ==> currentTool != TextTool
      modifies this
      ensures Valid()
      ensures Snapshot() == Move(old(Snapshot()), endPos)
      ensures !old(mouseKeyDown) ==> unchanged(this)
    {
      if mouseKeyDown {
        RedrawPreview(endPos);
      }
      MoveKeepsValid(old(Snapshot()), endPos);
    }

    /** The drag branch of the move handler: the old preview is taken off the scene and a new one drawn. */
    method RedrawPreview(endPos: Point)
      requires mouseKeyDown && MoveDefined(Snapshot())
      modifies this
      ensures Snapshot() == Move(old(Snapshot()), endPos)
    {
      ghost var before := Snapshot();
      if currentItem.Some? {
        RemoveItem(currentItem.value);
      }
      assert scene == WithoutPreview(before);
      var preview := NewItem(PreviewShape(currentTool, startPos.value, endPos, selectedColor));
      currentItem := Some(preview);
      AddItem(preview);
    }

    method MouseReleaseEvent()
      requires Valid()
      modifies this
      ensures Valid()
      ensures Snapshot() == Release(old(Snapshot()))
    {
      mouseKeyDown := false;
      if currentItem.Some? {
        items := items + [currentItem.value];
      }
      currentItem := None;
      ReleaseKeepsValid(old(Snapshot()));
    }

    /** Only the undo branch changes the session; the export branches are not part of this model. */
    method KeyPressEvent(e: KeyEvent)
      requires Valid()
      modifies this
      ensures Valid()
      ensures Snapshot() == KeyPress(old(Snapshot()), e)
    {
      if IsUndoChord(e) {
        if items != [] {
          var last := items[|items| - 1];
          items := items[..|items| - 1];
          RemoveItem(last);
        }
      }
      KeyPressKeepsValid(old(Snapshot()), e);
    }
  }
}
