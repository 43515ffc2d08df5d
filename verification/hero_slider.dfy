/**
  The home-page banner carousel: three slides, advanced by a timer, chosen
  by the dots, and changed by a horizontal swipe. Touch coordinates are
  whole numbers; the timer's firing is an event.
 */
module HeroSlider {
  import opened Types

  const SlideCount: int := 3

  /** The swipe distance that must be exceeded, in pixels. */
  const SwipeThreshold: int := 40

  type SlideIndex = i: int | 0 <= i < SlideCount

  /** The shown slide, and the touch-tracking refs: where the current touch
      started, and whether it has already changed the slide. */
  datatype Slider = Slider(index: SlideIndex, startX: Option<int>, startY: Option<int>, swiped: bool)

  const Initial: Slider := Slider(0, None, None, false)

  function Next(i: SlideIndex): (r: SlideIndex)
    ensures i < SlideCount - 1 ==> r == i + 1
    ensures i == SlideCount - 1 ==> r == 0
  {
    (i + 1) % SlideCount
  }

  function Prev(i: SlideIndex): (r: SlideIndex)
    ensures i > 0 ==> r == i - 1
    ensures i == 0 ==> r == SlideCount - 1
  {
    (i - 1 + SlideCount) % SlideCount
  }

  /** Back undoes forward and forward undoes back; three steps forward
      return to the same slide. */
  lemma NextPrevInverse(i: SlideIndex)
    ensures Prev(Next(i)) == i && Next(Prev(i)) == i
    ensures Next(Next(Next(i))) == i
    ensures Next(i) != i && Prev(i) != i
  {
  }

  function Abs(x: int): nat {
    if x < 0 then -x else x
  }

  datatype Event =
    | Tick                          // the five-second timer fires
    | Dot(target: SlideIndex)       // a dot is pressed
    | TouchStart(x: int, y: int)
    | TouchMove(x: int, y: int)
    | TouchEnd

  /** A finger moves: the first move of a touch that travels more than the
      threshold, more sideways than up or down, changes the slide once —
      leftward to the next slide, rightward to the previous one. */
  function OnTouchMove(s: Slider, x: int, y: int): (r: Slider)
    ensures r.startX == s.startX && r.startY == s.startY
    ensures (s.startX.None? || s.startY.None? || s.swiped) ==> r == s
    ensures s.startX.Some? && s.startY.Some? && !s.swiped ==>
      var dx, dy := x - s.startX.value, y - s.startY.value;
      (r.swiped <==> Abs(dx) > SwipeThreshold && Abs(dx) > Abs(dy))
      && (r.swiped && dx < 0 ==> r.index == Next(s.index))
      && (r.swiped && dx > 0 ==> r.index == Prev(s.index))
      && (!r.swiped ==> r == s)
  {
    if s.startX.None? || s.startY.None? then s
    else
      var dx := x - s.startX.value;
      var dy := y - s.startY.value;
      if !s.swiped && Abs(dx) > SwipeThreshold && Abs(dx) > Abs(dy) then
        s.(swiped := true, index := if dx < 0 then Next(s.index) else Prev(s.index))
      else s
  }

  function Step(s: Slider, e: Event): (r: Slider)
    ensures e.Tick? ==> r.index == Next(s.index)
    ensures e.Dot? ==> r.index == e.target
    ensures (e.Tick? || e.Dot?) ==> r.startX == s.startX && r.startY == s.startY && r.swiped == s.swiped
    ensures e.TouchStart? ==> r.index == s.index && r.startX == Some(e.x) && r.startY == Some(e.y) && !r.swiped
    ensures e.TouchEnd? ==> r.index == s.index && r.startX.None? && r.startY.None? && !r.swiped
  {
    match e
      case Tick => s.(index := Next(s.index))
      case Dot(t) => s.(index := t)
      case TouchStart(x, y) => s.(startX := Some(x), startY := Some(y), swiped := false)
      case TouchMove(x, y) => OnTouchMove(s, x, y)
      case TouchEnd => s.(startX := None, startY := None, swiped := false)
  }

  /** A run of finger movements. */
  function Moves(s: Slider, ms: seq<(int, int)>): Slider
    decreases |ms|
  {
    if |ms| == 0 then s else Moves(OnTouchMove(s, ms[0].0, ms[0].1), ms[1..])
  }

  /** Once a touch has changed the slide, further movement changes nothing
      but the recorded position stays. */
  lemma {:induction false} SwipedTouchIsInert(s: Slider, ms: seq<(int, int)>)
    requires s.swiped
    ensures Moves(s, ms) == s
    decreases |ms|
  {
    if |ms| > 0 {
      SwipedTouchIsInert(OnTouchMove(s, ms[0].0, ms[0].1), ms[1..]);
    }
  }

  /** Movement changes the slide at most once: it ends where it began, one
      slide on, or one slide back, and it only changes it by swiping. */
  lemma {:induction false} MovesChangeAtMostOnce(s: Slider, ms: seq<(int, int)>)
    ensures var r := Moves(s, ms);
      r.index == s.index || r.index == Next(s.index) || r.index == Prev(s.index)
    ensures var r := Moves(s, ms);
      !s.swiped && r.index != s.index ==> r.swiped
    ensures s.swiped ==> Moves(s, ms).index == s.index
    decreases |ms|
  {
    if |ms| > 0 {
      var s1 := OnTouchMove(s, ms[0].0, ms[0].1);
      if s1.swiped && !s.swiped {
        SwipedTouchIsInert(s1, ms[1..]);
      } else {
        MovesChangeAtMostOnce(s1, ms[1..]);
      }
    }
  }

  /** A whole gesture — touch down, any movement, lift — moves the carousel
      by at most one slide and leaves no touch recorded. */
  lemma Gesture(s: Slider, x: int, y: int, ms: seq<(int, int)>)
    ensures var r := Step(Moves(Step(s, TouchStart(x, y)), ms), TouchEnd);
      (r.index == s.index || r.index == Next(s.index) || r.index == Prev(s.index))
      && r.startX.None? && r.startY.None? && !r.swiped
  {
    MovesChangeAtMostOnce(Step(s, TouchStart(x, y)), ms);
  }

  /** A move without a touch in progress does nothing. */
  lemma MoveWithoutTouchIgnored(s: Slider, x: int, y: int)
    requires s.startX.None?
    ensures Step(s, TouchMove(x, y)) == s
  {
  }
}
