/**
 * The graphics scene as an ordered list of the items added to it: the base
 * pixmap added at start-up (qtannotator.py:30) and the annotation items the
 * event handlers add and remove. Qt items are objects with identity, so each
 * annotation item carries an id; two items with equal geometry are still
 * different items.
 */
module SceneGraph {
  import opened Shapes

  datatype Item = Item(id: nat, shape: Shape)

  datatype Graphic = BasePixmap | Drawn(item: Item)

  /** No item occurs twice: Qt keeps each item in a scene at most once. */
  predicate Distinct<T(==)>(s: seq<T>)
    decreases |s|
  {
    s == [] || (s[0] !in s[1..] && Distinct(s[1..]))
  }

  /**
   * `QGraphicsScene.removeItem`: the scene with `g` taken out and the other
   * items left in their order. Removing an item that is not in the scene
   * changes nothing.
   */
  function Without(scene: seq<Graphic>, g: Graphic): (r: seq<Graphic>)
    ensures forall x :: x in r <==> x in scene && x != g
    ensures g !in scene ==> r == scene
    ensures Distinct(scene) ==> Distinct(r)
    ensures Distinct(scene) && g in scene ==> |r| == |scene| - 1
  {
    if scene == [] then []
    else if scene[0] == g then Without(scene[1..], g)
    else
      var rest := Without(scene[1..], g);
      DistinctCons(scene[0], scene[1..]);
      DistinctCons(scene[0], rest);
      [scene[0]] + rest
  }

  lemma DistinctCons<T>(x: T, s: seq<T>)
    ensures Distinct([x] + s) <==> x !in s && Distinct(s)
  {
    assert ([x] + s)[1..] == s;
  }

  /** Appending an element that is not yet present keeps a sequence free of repeats. */
  lemma {:induction false} DistinctAppend<T>(s: seq<T>, x: T)
    requires Distinct(s) && x !in s
    ensures Distinct(s + [x])
    decreases |s|
  {
    if s != [] {
      assert (s + [x])[1..] == s[1..] + [x];
      DistinctAppend(s[1..], x);
    }
  }

  /** Dropping the last element keeps a sequence free of repeats, and the last element is not among the rest. */
  lemma {:induction false} DistinctDropLast<T>(s: seq<T>)
    requires Distinct(s) && s != []
    ensures Distinct(s[..|s| - 1]) && s[|s| - 1] !in s[..|s| - 1]
    decreases |s|
  {
    if |s| > 1 {
      var t := s[..|s| - 1];
      assert t[1..] == s[1..][..|s| - 2];
      assert s[|s| - 1] == s[1..][|s| - 2];
      DistinctDropLast(s[1..]);
    }
  }

  /** Removing from a concatenation removes from each part. */
  lemma {:induction false} WithoutAppend(a: seq<Graphic>, b: seq<Graphic>, g: Graphic)
    ensures Without(a + b, g) == Without(a, g) + Without(b, g)
  {
    if a == [] {
      assert a + b == b;
    } else {
      assert (a + b)[1..] == a[1..] + b;
      WithoutAppend(a[1..], b, g);
    }
  }

  /** Adding an item that was not in the scene and removing it again restores the scene. */
  lemma AddThenRemove(scene: seq<Graphic>, g: Graphic)
    requires g !in scene
    ensures Without(scene + [g], g) == scene
  {
    WithoutAppend(scene, [g], g);
    assert Without([g], g) == [];
  }
}
