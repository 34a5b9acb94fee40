// The garment design editor's object list: adding text and image objects,
// deleting and editing the selected one, and the drag handlers that move the
// last object. Raycasting, texture drawing and the camera controls' own
// behaviour are outside the model: a pointer event arrives as the surface
// coordinate it hit, or None when the ray hit nothing usable.
module DesignEditor {

  import opened Wrappers

  datatype Kind = Text | Image

  /** A texture coordinate on the garment. */
  datatype UV = UV(u: real, v: real)

  /** A design object; the optional fields of the source are Options. */
  datatype DesignObject = DesignObject(
    kind: Kind,
    value: string,
    fontSize: Option<int>,
    width: Option<int>,
    height: Option<int>,
    uv: Option<UV>,
    scale: Option<real>,
    rotation: Option<real>,
    color: Option<string>)

  /** The keys `updateSelected` accepts, with their new values. */
  datatype Edit = SetScale(scale: real) | SetRotation(rotation: real) | SetColor(color: string)

  /**
   * The object "Add Text" appends: the greeting text at font size 80, with no
   * image size, no position on the garment until it is dragged, unit scale,
   * no rotation and no colour of its own.
   */
  function NewText(): (o: DesignObject)
    ensures o.kind == Text && o.value == "Hello World" && o.fontSize == Some(80)
    ensures o.width.None? && o.height.None? && o.uv.None? && o.color.None?
    ensures o.scale == Some(1.0) && o.rotation == Some(0.0)
  {
    DesignObject(Text, "Hello World", Some(80), None, None, None, Some(1.0), Some(0.0), None)
  }

  /**
   * The object "Add Image" appends: the sample picture at 300 by 300, with no
   * font size, no position on the garment until it is dragged, unit scale,
   * no rotation and no colour of its own.
   */
  function NewImage(): (o: DesignObject)
    ensures o.kind == Image && o.value == "/images/sample-design.png" && o.fontSize.None?
    ensures o.width == Some(300) && o.height == Some(300) && o.uv.None? && o.color.None?
    ensures o.scale == Some(1.0) && o.rotation == Some(0.0)
  {
    DesignObject(Image, "/images/sample-design.png", None, Some(300), Some(300), None, Some(1.0), Some(0.0), None)
  }

  /** The edited object: the key the edit names takes its value, every other field stays. */
  function Apply(o: DesignObject, e: Edit): (r: DesignObject)
    ensures r.(scale := o.scale, rotation := o.rotation, color := o.color) == o
    ensures e.SetScale? ==> r.scale == Some(e.scale) && r.rotation == o.rotation && r.color == o.color
    ensures e.SetRotation? ==> r.rotation == Some(e.rotation) && r.scale == o.scale && r.color == o.color
    ensures e.SetColor? ==> r.color == Some(e.color) && r.scale == o.scale && r.rotation == o.rotation
  {
    match e
    case SetScale(x) => o.(scale := Some(x))
    case SetRotation(x) => o.(rotation := Some(x))
    case SetColor(c) => o.(color := Some(c))
  }

  /** Setting the same key to the same value twice is the same as once. */
  lemma ApplyIdempotent(o: DesignObject, e: Edit)
    ensures Apply(Apply(o, e), e) == Apply(o, e)
  {
  }

  /** The key an edit writes. */
  datatype Key = ScaleKey | RotationKey | ColorKey

  function KeyOf(e: Edit): Key
  {
    match e
    case SetScale(_) => ScaleKey
    case SetRotation(_) => RotationKey
    case SetColor(_) => ColorKey
  }

  /** Edits of different keys commute. */
  lemma ApplyCommutes(o: DesignObject, e1: Edit, e2: Edit)
    requires KeyOf(e1) != KeyOf(e2)
    ensures Apply(Apply(o, e1), e2) == Apply(Apply(o, e2), e1)
  {
  }

  /** Of two edits of the same key, the later one wins. */
  lemma ApplyOverwrites(o: DesignObject, e1: Edit, e2: Edit)
    requires KeyOf(e1) == KeyOf(e2)
    ensures Apply(Apply(o, e1), e2) == Apply(o, e2)
  {
  }

  /** The list without the element at position `k`; a `k` outside the list removes nothing. */
  function WithoutIndex<T>(s: seq<T>, k: int): (r: seq<T>)
    ensures 0 <= k < |s| ==> r == s[..k] + s[k + 1..]
    ensures !(0 <= k < |s|) ==> r == s
  {
    if s == [] then []
    else
      var rest := WithoutIndex(s[1..], k - 1);
      assert s == [s[0]] + s[1..];
      if k == 0 then rest
      else
        assert 0 < k < |s| ==> s[..k] == [s[0]] + s[1..][..k - 1] && s[k + 1..] == s[1..][k..];
        [s[0]] + rest
  }

  /** Removing the object just appended restores the list. */
  lemma {:induction false} DeleteUndoesAdd<T>(s: seq<T>, x: T)
    ensures WithoutIndex(s + [x], |s|) == s
  {
    assert (s + [x])[..|s|] == s;
    assert (s + [x])[|s| + 1..] == [];
  }

  /** The list with its last element replaced by `x`; the empty list becomes `[x]`. */
  function ReplaceLast<T>(s: seq<T>, x: T): (r: seq<T>)
    ensures |s| > 0 ==> |r| == |s|
    ensures |s| == 0 ==> r == [x]
    ensures r[|r| - 1] == x
    ensures forall i :: 0 <= i < |r| - 1 ==> r[i] == s[i]
  {
    (if |s| == 0 then [] else s[..|s| - 1]) + [x]
  }

  /** Replacing the last element twice keeps only the second replacement. */
  lemma ReplaceLastTwice<T>(s: seq<T>, x: T, y: T)
    ensures ReplaceLast(ReplaceLast(s, x), y) == ReplaceLast(s, y)
  {
    var r := ReplaceLast(s, x);
    assert r[..|r| - 1] == (if |s| == 0 then [] else s[..|s| - 1]);
  }

  class Editor {
    var objects: seq<DesignObject>
    /** `selectedIndex`: null is None. */
    var selectedIndex: Option<int>
    /** `selectedRef.current`: the object being dragged, if any. */
    var dragged: Option<DesignObject>
    /** Whether the orbit controls respond; turned off while dragging. */
    var controlsEnabled: bool

    constructor ()
      ensures objects == [] && selectedIndex == None && dragged == None && controlsEnabled
    {
      objects, selectedIndex, dragged, controlsEnabled := [], None, None, true;
    }

    predicate SelectionInRange()
      reads this
    {
      selectedIndex.Some? && 0 <= selectedIndex.value < |objects|
    }

    /** "Add Text": append the default text object and select it. */
    method AddText()
      modifies this
      ensures objects == old(objects) + [NewText()]
      ensures selectedIndex == Some(|old(objects)|) && SelectionInRange()
      ensures dragged == old(dragged) && controlsEnabled == old(controlsEnabled)
    {
      selectedIndex := Some(|objects|);
      objects := objects + [NewText()];
    }

    /** "Add Image": append the default image object and select it. */
    method AddImage()
      modifies this
      ensures objects == old(objects) + [NewImage()]
      ensures selectedIndex == Some(|old(objects)|) && SelectionInRange()
      ensures dragged == old(dragged) && controlsEnabled == old(controlsEnabled)
    {
      selectedIndex := Some(|objects|);
      objects := objects + [NewImage()];
    }

    /** "Delete Selected": drop the selected index and clear the selection. */
    method DeleteSelected()
      modifies this
      ensures old(selectedIndex).None? ==> objects == old(objects) && selectedIndex == None
      ensures old(selectedIndex).Some? ==> objects == WithoutIndex(old(objects), old(selectedIndex).value)
      ensures selectedIndex == None
      ensures old(SelectionInRange()) ==> |objects| == |old(objects)| - 1
      ensures dragged == old(dragged) && controlsEnabled == old(controlsEnabled)
    {
      if selectedIndex.None? {
        return;
      }
      objects := WithoutIndex(objects, selectedIndex.value);
      selectedIndex := None;
    }

    /** `updateSelected(key, value)`: change one key of the selected object, if there is one. */
    method UpdateSelected(e: Edit)
      modifies this
      ensures !old(SelectionInRange()) ==> objects == old(objects)
      ensures old(SelectionInRange()) ==>
                var i := old(selectedIndex).value;
                objects == old(objects)[i := Apply(old(objects)[i], e)]
      ensures |objects| == |old(objects)|
      ensures selectedIndex == old(selectedIndex)
      ensures dragged == old(dragged) && controlsEnabled == old(controlsEnabled)
    {
      if !SelectionInRange() {
        return;
      }
      var i := selectedIndex.value;
      objects := objects[i := Apply(objects[i], e)];
    }

    /**
     * Pointer down: with objects present and a hit, the last object takes the
     * hit coordinate, becomes the dragged and selected object, and the orbit
     * controls are switched off.
     */
    method PointerDown(hit: Option<UV>)
      modifies this
      ensures |old(objects)| == 0 || hit.None? ==>
                objects == old(objects) && selectedIndex == old(selectedIndex)
                && dragged == old(dragged) && controlsEnabled == old(controlsEnabled)
      ensures |old(objects)| > 0 && hit.Some? ==>
                var last := old(objects)[|old(objects)| - 1];
                && dragged == Some(last.(uv := Some(hit.value)))
                && objects == old(objects)[|old(objects)| - 1 := dragged.value]
                && selectedIndex == Some(|old(objects)| - 1)
                && !controlsEnabled
    {
      if |objects| == 0 || hit.None? {
        return;
      }
      controlsEnabled := false;
      var moved := objects[|objects| - 1].(uv := Some(hit.value));
      dragged := Some(moved);
      selectedIndex := Some(|objects| - 1);
      objects := ReplaceLast(objects, moved);
    }

    /** Pointer move: while dragging, the dragged object takes the new coordinate and replaces the last object. */
    method PointerMove(hit: Option<UV>)
      modifies this
      ensures old(dragged).None? || hit.None? ==> objects == old(objects) && dragged == old(dragged)
      ensures old(dragged).Some? && hit.Some? ==>
                && dragged == Some(old(dragged).value.(uv := Some(hit.value)))
                && objects == ReplaceLast(old(objects), dragged.value)
      ensures selectedIndex == old(selectedIndex) && controlsEnabled == old(controlsEnabled)
    {
      if dragged.None? || hit.None? {
        return;
      }
      dragged := Some(dragged.value.(uv := Some(hit.value)));
      objects := ReplaceLast(objects, dragged.value);
    }

    /** Pointer up: the drag ends and the orbit controls come back. */
    method PointerUp()
      modifies this
      ensures dragged == None && controlsEnabled
      ensures objects == old(objects) && selectedIndex == old(selectedIndex)
    {
      dragged := None;
      controlsEnabled := true;
    }
  }

  /** After the pointer is released, moves change nothing. */
  method ReleaseEndsDrag(e: Editor, hit: Option<UV>)
    modifies e
    ensures e.objects == old(e.objects) && e.selectedIndex == old(e.selectedIndex)
    ensures e.dragged == None
  {
    e.PointerUp();
    e.PointerMove(hit);
  }
}
