/**
 * The custom cursor of src/components/CustomCursor.tsx: its position and the
 * hovering, clicking and visible flags that the mouse event handlers set, and
 * the test that decides whether the element under the pointer is interactive.
 */
module CustomCursor {
  import opened Wrappers

  /** The parts of a DOM element the hover test looks at. */
  datatype Element = Element(tagName: string, classes: set<string>, role: Option<string>, attributes: set<string>)

  /**
   * `target.closest(tag)`: the first element, starting with the target itself
   * and walking up through its ancestors, whose tag matches.
   */
  function Closest(path: seq<Element>, tag: string): (r: Option<nat>)
    ensures r.Some? ==>
              && r.value < |path| && path[r.value].tagName == tag
              && forall k :: 0 <= k < r.value ==> path[k].tagName != tag
    ensures r.None? ==> forall k :: 0 <= k < |path| ==> path[k].tagName != tag
  {
    if path == [] then None
    else if path[0].tagName == tag then Some(0)
    else match Closest(path[1..], tag)
      case None => None
      case Some(k) => Some(k + 1)
  }

  /**
   * `handleMouseOver`'s condition, for the target `path[0]` and its ancestors
   * `path[1..]` (HTML tag names are upper case).
   */
  predicate IsInteractive(target: Element, ancestors: seq<Element>) {
    var path := [target] + ancestors;
    target.tagName == "A"
    || target.tagName == "BUTTON"
    || "hover-btn" in target.classes
    || Closest(path, "BUTTON").Some?
    || Closest(path, "A").Some?
    || target.role == Some("button")
    || "data-interactive" in target.attributes
  }

  /**
   * The target is interactive exactly when it or an ancestor is a button or a
   * link, or it carries one of the three interactive markers.
   */
  lemma IsInteractiveIff(target: Element, ancestors: seq<Element>)
    ensures IsInteractive(target, ancestors) <==>
      || LinkOrButtonOnPath([target] + ancestors)
      || "hover-btn" in target.classes
      || target.role == Some("button")
      || "data-interactive" in target.attributes
  {
    var path := [target] + ancestors;
    if LinkOrButtonOnPath(path) {
      var k :| 0 <= k < |path| && IsLinkOrButton(path[k]);
      if path[k].tagName == "A" {
        assert Closest(path, "A").Some?;
      } else {
        assert Closest(path, "BUTTON").Some?;
      }
    }
    if Closest(path, "A").Some? {
      assert IsLinkOrButton(path[Closest(path, "A").value]);
    }
    if Closest(path, "BUTTON").Some? {
      assert IsLinkOrButton(path[Closest(path, "BUTTON").value]);
    }
  }

  predicate IsLinkOrButton(e: Element) {
    e.tagName == "A" || e.tagName == "BUTTON"
  }

  /** Some element on the path, the target or an ancestor, is a link or a button. */
  predicate LinkOrButtonOnPath(path: seq<Element>) {
    exists k :: 0 <= k < |path| && IsLinkOrButton(path[k])
  }

  class Cursor {
    var x: int
    var y: int
    var isHovering: bool
    var isClicking: bool
    var isVisible: bool

    /** The cursor starts hidden, off screen at (-100, -100). */
    constructor ()
      ensures x == -100 && y == -100
      ensures !isHovering && !isClicking && !isVisible
    {
      x, y := -100, -100;
      isHovering, isClicking, isVisible := false, false, false;
    }

    method HandleMouseMove(clientX: int, clientY: int)
      modifies this`x, this`y, this`isVisible
      ensures x == clientX && y == clientY && isVisible
    {
      x, y := clientX, clientY;
      if !isVisible {
        isVisible := true;
      }
    }

    method HandleMouseOver(target: Element, ancestors: seq<Element>)
      modifies this`isHovering
      ensures isHovering == IsInteractive(target, ancestors)
    {
      if IsInteractive(target, ancestors) {
        isHovering := true;
      } else {
        isHovering := false;
      }
    }

    method HandleMouseOut()
      modifies this`isHovering
      ensures !isHovering
    {
      isHovering := false;
    }

    method HandleMouseDown()
      modifies this`isClicking
      ensures isClicking
    {
      isClicking := true;
    }

    method HandleMouseUp()
      modifies this`isClicking
      ensures !isClicking
    {
      isClicking := false;
    }

    /** Nothing is rendered until the first mouse move. */
    predicate Renders()
      reads this
    {
      isVisible
    }
  }
}
