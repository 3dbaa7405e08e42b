/**
 * The rendering surface: character divs are identified by their position in an
 * element store and carry only the inline style the quiz writes.
 */
module Dom {

  /** An element's identity: its index in the element store. */
  type ElemId = nat

  /** `style.opacity`: never written, `'0'` or `'1'`. */
  datatype Opacity = OpacityUnset | Transparent | Opaque

  /** `style.display`: never written, or `'none'`. */
  datatype Display = DisplayDefault | DisplayNone

  /** A character div: `style['margin-left']` in pixels, opacity, display and whether it has a parent. */
  datatype Element = Element(marginLeft: int, opacity: Opacity, display: Display, attached: bool)

  /** `document.createElement("div")`: no inline style, not in the document yet. */
  const Blank := Element(0, OpacityUnset, DisplayDefault, false)

  /** `e.style.opacity = '0'` */
  function Fade(e: Element): Element {
    e.(opacity := Transparent)
  }

  /** `if (e.parentNode) e.parentNode.removeChild(e)`: a detached element stays detached. */
  function Detach(e: Element): Element {
    e.(attached := false)
  }

  /** The store after `f` was applied once to each element listed in `ids`. */
  function Restyled(els: seq<Element>, ids: seq<ElemId>, f: Element -> Element): (r: seq<Element>)
    ensures |r| == |els|
    ensures forall d :: 0 <= d < |els| && d !in ids ==> r[d] == els[d]
    ensures forall d :: 0 <= d < |els| && d in ids ==> r[d] == f(els[d])
  {
    seq(|els|, d requires 0 <= d < |els| => if d in ids then f(els[d]) else els[d])
  }
}
