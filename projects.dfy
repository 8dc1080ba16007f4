/**
  The projects section's mobile carousel: the index of the project shown and
  the direction of the last move, changed by the previous and next buttons,
  by a swipe at the end of a drag, and by the row of dots.
*/
module Projects {

  /** The number of entries in the project list. */
  const ProjectCount: nat := 4
  /** A swipe counts only when its power exceeds this in magnitude. */
  const SwipeConfidenceThreshold: real := 10000.0

  function Abs(x: real): (r: real)
    ensures r >= 0.0 && (r == x || r == -x)
  {
    if x < 0.0 then -x else x
  }

  /**
    The power of a swipe, `|offset| * velocity`: its magnitude is the product
    of the magnitudes, and its sign is the sign of the velocity (zero when the
    offset is).
  */
  function SwipePower(offset: real, velocity: real): (p: real)
    ensures Abs(p) == Abs(offset) * Abs(velocity)
    ensures p < 0.0 <==> velocity < 0.0 && offset != 0.0
    ensures p > 0.0 <==> velocity > 0.0 && offset != 0.0
  {
    Abs(offset) * velocity
  }

  /**
    The page step a drag ends with: a strong swipe to the left (power below
    the negative threshold) moves to the next project, a strong swipe to the
    right to the previous one, anything weaker does nothing (0).
  */
  function SwipeStep(offset: real, velocity: real): (d: int)
    ensures d == 1 <==> SwipePower(offset, velocity) < -SwipeConfidenceThreshold
    ensures d == -1 <==> SwipePower(offset, velocity) > SwipeConfidenceThreshold
    ensures d == 0 <==> Abs(SwipePower(offset, velocity)) <= SwipeConfidenceThreshold
  {
    var swipe := SwipePower(offset, velocity);
    if swipe < -SwipeConfidenceThreshold then 1
    else if swipe > SwipeConfidenceThreshold then -1
    else 0
  }

  /** A swipe needs a non-zero offset and a velocity large enough in the matching direction. */
  lemma SwipeNeedsMovement(offset: real, velocity: real)
    ensures SwipeStep(offset, velocity) != 0 ==> offset != 0.0 && velocity != 0.0
    ensures SwipeStep(offset, velocity) == 1 ==> velocity < 0.0
    ensures SwipeStep(offset, velocity) == -1 ==> velocity > 0.0
  {
  }

  /** Moving by `d` from `index` lands on a project. */
  predicate CanMove(index: int, d: int, count: nat) {
    0 <= index + d < count
  }

  class Carousel {
    /** The number of projects. */
    const count: nat
    /** The project shown. */
    var currentIndex: int
    /** The direction of the last move, read by the slide animation. */
    var direction: int

    /** The index always names a project. */
    ghost predicate Valid()
      reads this
    {
      0 <= currentIndex < count
    }

    /** The section starts on the first project, with no direction. */
    constructor ()
      ensures Valid()
      ensures count == ProjectCount && currentIndex == 0 && direction == 0
    {
      count := ProjectCount;
      currentIndex := 0;
      direction := 0;
    }

    /** Move by `newDirection` when that lands on a project; otherwise change nothing. */
    method Paginate(newDirection: int)
      requires Valid()
      modifies this
      ensures Valid()
      ensures CanMove(old(currentIndex), newDirection, count) ==>
                currentIndex == old(currentIndex) + newDirection && direction == newDirection
      ensures !CanMove(old(currentIndex), newDirection, count) ==>
                currentIndex == old(currentIndex) && direction == old(direction)
    {
      var newIndex := currentIndex + newDirection;
      if newIndex >= 0 && newIndex < count {
        direction := newDirection;
        currentIndex := newIndex;
      }
    }

    /** The end of a drag: paginate by the swipe's step, or leave the state untouched. */
    method HandleDragEnd(offset: real, velocity: real)
      requires Valid()
      modifies this
      ensures Valid()
      ensures var d := SwipeStep(offset, velocity);
        if d != 0 && CanMove(old(currentIndex), d, count)
        then currentIndex == old(currentIndex) + d && direction == d
        else currentIndex == old(currentIndex) && direction == old(direction)
    {
      var swipe := SwipePower(offset, velocity);
      if swipe < -SwipeConfidenceThreshold {
        Paginate(1);
      } else if swipe > SwipeConfidenceThreshold {
        Paginate(-1);
      }
    }

    /** A click on dot `idx`: show that project; the direction is 1 only for a later one. */
    method SelectDot(idx: int)
      requires Valid() && 0 <= idx < count
      modifies this
      ensures Valid()
      ensures currentIndex == idx
      ensures direction == if idx > old(currentIndex) then 1 else -1
    {
      direction := if idx > currentIndex then 1 else -1;
      currentIndex := idx;
    }

    /** The previous button is disabled exactly when paginating back would change nothing. */
    function PreviousDisabled(): (b: bool)
      reads this
      ensures Valid() ==> (b <==> !CanMove(currentIndex, -1, count))
    {
      currentIndex == 0
    }

    /** The next button is disabled exactly when paginating forward would change nothing. */
    function NextDisabled(): (b: bool)
      reads this
      ensures Valid() ==> (b <==> !CanMove(currentIndex, 1, count))
    {
      currentIndex == count - 1
    }
  }
}
