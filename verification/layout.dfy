/**
 * Horizontal layout of the character divs: the current character rests in the
 * middle, completed characters form a trail to its left, at most
 * TRAIL_LENGTH of them visible.
 *
 * Offsets are integers: `size` is the configured pixel size and Dafny's `/`
 * by the positive constant 2 rounds down, like `Math.floor(x / 2)`.
 */
module Layout {
  import opened Seqs
  import opened Dom

  /** Gap in pixels between two neighbouring characters. */
  const CHAR_SPACING: int := 20

  /** Number of completed characters that stay visible. */
  const TRAIL_LENGTH: nat := 5

  /** `-Math.floor(size / 2)`: resting offset of the current character. */
  function RestingOffset(size: int): int {
    -(size / 2)
  }

  /** `Math.floor(size / 2) + CHAR_SPACING`: where a new character slides in from. */
  function EntryOffset(size: int): int {
    size / 2 + CHAR_SPACING
  }

  /** `Math.floor(-size / 2 - (size + CHAR_SPACING) * (i + 1))`: offset of trail position `i`. */
  function TrailOffset(size: int, i: nat): int {
    (-size) / 2 - (size + CHAR_SPACING) * (i + 1)
  }

  /** What `repositionDivs` does to the div at trail position `i`. */
  function TrailSlot(e: Element, i: nat, size: int): Element {
    if i < TRAIL_LENGTH then e.(marginLeft := TrailOffset(size, i)) else e.(display := DisplayNone)
  }

  /** The current div after `repositionDivs`: back at rest and fully visible. */
  function AtRest(e: Element, size: int): Element {
    e.(marginLeft := RestingOffset(size), opacity := Opaque)
  }

  /**
   * The element store after `repositionDivs`: every div of the trail in its
   * slot, the current div at rest, every other element as it was.
   */
  function Repositioned(els: seq<Element>, trail: seq<ElemId>, current: ElemId, size: int): (r: seq<Element>)
    requires current < |els|
    ensures |r| == |els|
  {
    seq(|els|, d requires 0 <= d < |els| =>
      if d == current then AtRest(els[d], size)
      else if d in trail then TrailSlot(els[d], IndexOf(trail, d), size)
      else els[d])
  }

  /**
   * The layout `repositionDivs` produces, position by position: the first
   * TRAIL_LENGTH trail divs move to their offsets, every later one is hidden
   * rather than moved, the current div rests, and no other element changes.
   */
  lemma RepositionedLayout(els: seq<Element>, trail: seq<ElemId>, current: ElemId, size: int)
    requires current < |els| && current !in trail && Distinct(trail)
    requires forall i :: 0 <= i < |trail| ==> trail[i] < |els|
    ensures var r := Repositioned(els, trail, current, size);
      && r[current] == els[current].(marginLeft := RestingOffset(size), opacity := Opaque)
      && (forall i :: 0 <= i < |trail| && i < TRAIL_LENGTH ==>
            r[trail[i]] == els[trail[i]].(marginLeft := TrailOffset(size, i)))
      && (forall i :: TRAIL_LENGTH <= i < |trail| ==>
            r[trail[i]] == els[trail[i]].(display := DisplayNone))
      && (forall d :: 0 <= d < |els| && d != current && d !in trail ==> r[d] == els[d])
  {
    var r := Repositioned(els, trail, current, size);
    forall i | 0 <= i < |trail|
      ensures r[trail[i]] == TrailSlot(els[trail[i]], i, size)
    {
      IndexOfDistinct(trail, i);
    }
  }

  /**
   * A store holding each trail div in its slot and every other div unchanged
   * becomes `Repositioned` once its current div is put at rest.
   */
  lemma SlotsThenRest(orig: seq<Element>, els: seq<Element>, trail: seq<ElemId>, current: ElemId, size: int)
    requires current < |orig| == |els| && current !in trail && Distinct(trail)
    requires forall j :: 0 <= j < |trail| ==> trail[j] < |orig| && els[trail[j]] == TrailSlot(orig[trail[j]], j, size)
    requires forall d :: 0 <= d < |els| && d !in trail ==> els[d] == orig[d]
    ensures els[current := AtRest(els[current], size)] == Repositioned(orig, trail, current, size)
  {
    var r := Repositioned(orig, trail, current, size);
    forall d | 0 <= d < |els|
      ensures els[current := AtRest(els[current], size)][d] == r[d]
    {
      if d != current && d in trail {
        var j :| 0 <= j < |trail| && trail[j] == d;
        IndexOfDistinct(trail, j);
      }
    }
  }

  /** Neighbouring trail divs are exactly one character width plus CHAR_SPACING apart. */
  lemma TrailSpacing(size: int, i: nat)
    ensures TrailOffset(size, i) - TrailOffset(size, i + 1) == size + CHAR_SPACING
  {
  }

  /**
   * The gap between the resting current div and the first trail div is one
   * character width plus CHAR_SPACING, plus one pixel when `size` is odd: the
   * current div rounds `-size / 2` up, the trail rounds it down.
   */
  lemma CurrentToTrailGap(size: int)
    ensures RestingOffset(size) - TrailOffset(size, 0) == size + CHAR_SPACING + size % 2
  {
  }

  /** A sliding-in character starts one character width plus CHAR_SPACING (less one pixel for odd sizes) to the right of rest. */
  lemma EntryDistance(size: int)
    ensures EntryOffset(size) - RestingOffset(size) == size - size % 2 + CHAR_SPACING
  {
  }
}
