/**
 The slide transition of src/components/stories/story-transitions.tsx.
 The component remembers the index it last settled on, whether a slide is
 under way and in which direction; an effect starts a transition when the
 current index changes, and a 400 ms timer settles it. `getSlideClass`
 places each slide at one of three horizontal offsets.
 */
module StoryTransitions {

  datatype Direction = Next | Prev | NoDirection

  /** `translate-x-0`, `translate-x-full` and `-translate-x-full`. */
  datatype Offset = Centre | FullRight | FullLeft

  datatype TransitionState = TransitionState(previousIndex: int, transitioning: bool, direction: Direction)

  function Initial(currentIndex: int): (t: TransitionState)
    ensures t.previousIndex == currentIndex && !t.transitioning && t.direction == NoDirection
  {
    TransitionState(currentIndex, false, NoDirection)
  }

  /** A slide is under way exactly when it has a direction. */
  predicate Coherent(t: TransitionState) {
    t.transitioning <==> t.direction != NoDirection
  }

  /** The effect run after a render with `currentIndex`: nothing when it is
      the settled index, else start sliding towards it. */
  function IndexChanged(t: TransitionState, currentIndex: int): (r: TransitionState)
    ensures t.previousIndex == currentIndex ==> r == t
    ensures t.previousIndex != currentIndex ==>
              && r.transitioning
              && r.previousIndex == t.previousIndex
              && (r.direction == Next <==> currentIndex > t.previousIndex)
              && (r.direction == Prev <==> currentIndex < t.previousIndex)
  {
    if t.previousIndex != currentIndex then
      t.(transitioning := true, direction := if currentIndex > t.previousIndex then Next else Prev)
    else t
  }

  /** The timer set by the effect: the slide is over and `currentIndex` is
      the new settled index. */
  function Settle(t: TransitionState, currentIndex: int): (r: TransitionState)
    ensures !r.transitioning && r.direction == NoDirection && r.previousIndex == currentIndex
    ensures Coherent(r)
  {
    TransitionState(currentIndex, false, NoDirection)
  }

  /** `getSlideClass(isCurrentSlide, isPreviousSlide)`. */
  function SlideOffset(t: TransitionState, isCurrent: bool, isPrevious: bool): (o: Offset)
    ensures isCurrent && Coherent(t) ==> o == Centre
    ensures !isCurrent ==> o != Centre
    ensures !isCurrent && t.transitioning && t.direction == Next ==> (o == FullLeft <==> isPrevious)
    ensures !isCurrent && t.transitioning && t.direction == Prev ==> (o == FullRight <==> isPrevious)
  {
    if !t.transitioning then
      (if isCurrent then Centre else FullRight)
    else if t.direction == Next then
      (if isCurrent then Centre else if isPrevious then FullLeft else FullRight)
    else if t.direction == Prev then
      (if isCurrent then Centre else if isPrevious then FullRight else FullLeft)
    else FullRight
  }

  /** The current slide is centred in every coherent state; the fallback
      branch of `getSlideClass` that would push it off screen is reached
      only by a state that has no direction while transitioning. */
  lemma CurrentSlideCentred(t: TransitionState, isPrevious: bool)
    ensures Coherent(t) ==> SlideOffset(t, true, isPrevious) == Centre
    ensures !Coherent(t) && t.transitioning ==> SlideOffset(t, true, isPrevious) == FullRight
  {
  }

  /** The outgoing slide leaves to the left when going forward and to the
      right when going back; slides that are neither current nor outgoing
      wait on the opposite side, and outside a transition on the right. */
  lemma SlideOffsets(t: TransitionState)
    ensures t.transitioning && t.direction == Next ==>
              SlideOffset(t, false, true) == FullLeft && SlideOffset(t, false, false) == FullRight
    ensures t.transitioning && t.direction == Prev ==>
              SlideOffset(t, false, true) == FullRight && SlideOffset(t, false, false) == FullLeft
    ensures !t.transitioning ==>
              SlideOffset(t, false, true) == FullRight && SlideOffset(t, false, false) == FullRight
  {
  }

  /** The outgoing slide is drawn only while sliding away from a different
      story that exists. */
  predicate OutgoingRendered(t: TransitionState, currentIndex: int, count: nat) {
    t.transitioning && 0 <= t.previousIndex < count && t.previousIndex != currentIndex
  }

  /** The hidden preload images of the two neighbours. */
  predicate NextPreloadRendered(currentIndex: int, count: nat) {
    currentIndex < count - 1
  }

  predicate PreviousPreloadRendered(currentIndex: int) {
    currentIndex > 0
  }

  /** For a current index in range, every neighbour image drawn is a story
      of the catalogue, and an outgoing slide that is drawn is off screen
      on the side it leaves by. */
  lemma RenderedIndicesInRange(t: TransitionState, currentIndex: int, count: nat)
    requires 0 <= currentIndex < count
    ensures NextPreloadRendered(currentIndex, count) ==> 0 <= currentIndex + 1 < count
    ensures PreviousPreloadRendered(currentIndex) ==> 0 <= currentIndex - 1 < count
    ensures OutgoingRendered(t, currentIndex, count) ==> SlideOffset(t, false, true) != Centre
    ensures Coherent(t) && OutgoingRendered(t, currentIndex, count) ==>
              SlideOffset(t, false, true) == if t.direction == Next then FullLeft else FullRight
  {
  }

  /** The two things that change the component's state. */
  datatype Change = Rendered(currentIndex: int) | TimerFired(currentIndex: int)

  function ApplyChange(t: TransitionState, c: Change): TransitionState {
    match c
    case Rendered(i) => IndexChanged(t, i)
    case TimerFired(i) => Settle(t, i)
  }

  function RunChanges(t: TransitionState, changes: seq<Change>): TransitionState
    decreases |changes|
  {
    if changes == [] then t else RunChanges(ApplyChange(t, changes[0]), changes[1..])
  }

  /** From mount on, the state stays coherent whatever the order of renders
      and timer firings, so the current slide is always centred. */
  lemma {:induction false} RunStaysCoherent(t: TransitionState, changes: seq<Change>)
    requires Coherent(t)
    ensures Coherent(RunChanges(t, changes))
    ensures SlideOffset(RunChanges(t, changes), true, false) == Centre
    decreases |changes|
  {
    if changes == [] {
      CurrentSlideCentred(t, false);
    } else {
      var next := ApplyChange(t, changes[0]);
      assert Coherent(next);
      RunStaysCoherent(next, changes[1..]);
    }
  }

  /** After settling on the current index no outgoing slide is drawn. */
  lemma SettledDrawsNoOutgoing(t: TransitionState, currentIndex: int, count: nat)
    ensures !OutgoingRendered(Settle(t, currentIndex), currentIndex, count)
    ensures SlideOffset(Settle(t, currentIndex), true, false) == Centre
  {
  }

  /** The component's state hooks as fields; the effect and the timer as
      methods. */
  class SlideTransitions {
    var previousIndex: int
    var isTransitioning: bool
    var transitionDirection: Direction

    function State(): TransitionState
      reads this
    {
      TransitionState(previousIndex, isTransitioning, transitionDirection)
    }

    constructor (currentIndex: int)
      ensures State() == Initial(currentIndex)
      ensures Coherent(State())
    {
      previousIndex := currentIndex;
      isTransitioning := false;
      transitionDirection := NoDirection;
    }

    /** The effect on `[currentIndex, previousIndex]`. */
    method Effect(currentIndex: int)
      modifies this
      ensures State() == IndexChanged(old(State()), currentIndex)
      ensures old(Coherent(State())) ==> Coherent(State())
    {
      if previousIndex != currentIndex {
        isTransitioning := true;
        if currentIndex > previousIndex {
          transitionDirection := Next;
        } else {
          transitionDirection := Prev;
        }
      }
    }

    /** The 400 ms timer the effect sets. */
    method TimerFired(currentIndex: int)
      modifies this
      ensures State() == Settle(old(State()), currentIndex)
    {
      isTransitioning := false;
      transitionDirection := NoDirection;
      previousIndex := currentIndex;
    }
  }
}
