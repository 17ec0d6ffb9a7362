/** The axe game (01-axe/main.cpp): a circle steered with the keyboard dodges a square
    that bounces up and down the middle of the screen. Touching the square ends the game,
    which freezes everything until the space key puts the circle back at the origin.
    One frame of the game loop is a transition on five integers once the state of the keys
    is given. */
module AxeGame {
  const ScreenWidth: int := 640
  const ScreenHeight: int := 360
  const CircleRadius: int := 25
  const RectSize: int := 80
  /** The square stays in the middle column: C++ integer division of a positive number. */
  const RectX: int := (ScreenWidth - RectSize) / 2
  const RectSpeed: int := 10

  /** Which keys are held down during a frame. */
  datatype Keys = Keys(shift: bool, a: bool, d: bool, w: bool, s: bool, space: bool)

  /** The loop's state: the circle's centre, the square's top edge and vertical speed, and
      whether the game is over. */
  datatype AxeState = AxeState(circleX: int, circleY: int, rectY: int, rectDirection: int, collided: bool)

  /** Lines 13-37: the state before the first frame. The circle starts at the origin and
      the square at y = 80 moving down, and the game is running. */
  function Initial(): (s: AxeState)
    ensures s.circleX == 0 && s.circleY == 0 && !s.collided
    ensures s.rectY == 80 && s.rectDirection == RectSpeed && 0 <= s.rectY <= ScreenHeight - RectSize
  {
    AxeState(0, 0, 80, RectSpeed, false)
  }

  /** The circle's speed in the frame: held shift doubles it. */
  function CircleSpeed(k: Keys): (speed: int)
    ensures speed > 0 && (k.shift <==> speed == 8) && (!k.shift <==> speed == 4)
  {
    if k.shift then 8 else 4
  }

  /** An axis-aligned box on integer coordinates, edges included. */
  datatype Box = Box(left: int, right: int, top: int, bottom: int)

  /** The circle's bounding box. */
  function CircleBox(s: AxeState): (b: Box)
    ensures b.right - b.left == 2 * CircleRadius && b.bottom - b.top == 2 * CircleRadius
    ensures b.left + CircleRadius == s.circleX && b.top + CircleRadius == s.circleY
  {
    Box(s.circleX - CircleRadius, s.circleX + CircleRadius, s.circleY - CircleRadius, s.circleY + CircleRadius)
  }

  /** The square. */
  function RectBox(s: AxeState): (b: Box)
    ensures b.right - b.left == RectSize && b.bottom - b.top == RectSize
    ensures b.left == RectX && b.top == s.rectY
  {
    Box(RectX, RectX + RectSize, s.rectY, s.rectY + RectSize)
  }

  predicate InBox(b: Box, px: int, py: int) {
    b.left <= px <= b.right && b.top <= py <= b.bottom
  }

  function Max(a: int, b: int): int { if a < b then b else a }

  /** Lines 80-81, the game-over test: the boxes overlap, touching edges included. For
      boxes that are not degenerate that means the top-left corner of their intersection
      lies in both. */
  function Touching(a: Box, b: Box): (r: bool)
    ensures a.left <= a.right && a.top <= a.bottom && b.left <= b.right && b.top <= b.bottom ==>
      (r <==> InBox(a, Max(a.left, b.left), Max(a.top, b.top)) && InBox(b, Max(a.left, b.left), Max(a.top, b.top)))
  {
    a.top <= b.bottom && a.bottom >= b.top && a.right >= b.left && a.left <= b.right
  }

  /** Two boxes that are not degenerate touch exactly when some point lies in both. */
  lemma TouchingIffSharedPoint(a: Box, b: Box)
    requires a.left <= a.right && a.top <= a.bottom && b.left <= b.right && b.top <= b.bottom
    ensures Touching(a, b) <==> exists px, py :: InBox(a, px, py) && InBox(b, px, py)
  {
    if Touching(a, b) {
      var px, py := Max(a.left, b.left), Max(a.top, b.top);
      assert InBox(a, px, py) && InBox(b, px, py);
    }
  }

  /** Lines 42-82: the game logic, which runs only while the game is not over. The edges
      used by the collision test are taken before anything moves, so the test looks at the
      positions the frame started with. */
  function Logic(s: AxeState, k: Keys): (r: AxeState)
    // while the game is over, nothing moves
    ensures s.collided ==> r == s
    ensures !s.collided ==> (r.collided <==> Touching(CircleBox(s), RectBox(s)))
    // the square moves by its speed, and the speed is only ever negated
    ensures !s.collided ==> r.rectY == s.rectY + s.rectDirection
    ensures r.rectDirection == s.rectDirection || r.rectDirection == -s.rectDirection
  {
    if s.collided then s
    else
      var circle, rect := CircleBox(s), RectBox(s);
      var speed := CircleSpeed(k);
      var rectY := s.rectY + s.rectDirection;
      var direction := if rectY > ScreenHeight - RectSize || rectY < 0 then -s.rectDirection else s.rectDirection;
      AxeState(MoveAxis(s.circleX, k.a, k.d, ScreenWidth, speed), MoveAxis(s.circleY, k.w, k.s, ScreenHeight, speed),
               rectY, direction, Touching(circle, rect))
  }

  /** The circle's move along one axis: back toward 0 while its coordinate is positive,
      then forth while it is below the screen's size on that axis. One key held moves the
      circle by exactly one step unless it is at or past that edge; both keys held cancel
      out away from the edges. */
  function MoveAxis(c: int, back: bool, forth: bool, size: int, speed: int): (r: int)
    ensures !back && !forth ==> r == c
    ensures back && !forth ==> r == if c > 0 then c - speed else c
    ensures forth && !back ==> r == if c < size then c + speed else c
    ensures back && forth && 0 < c && c - speed < size ==> r == c
    ensures back && forth && c <= 0 && c < size ==> r == c + speed
    ensures back && forth && 0 < c && c - speed >= size ==> r == c - speed
  {
    var c' := if back && c > 0 then c - speed else c;
    if forth && c' < size then c' + speed else c'
  }

  /** Lines 88-96: with the game over, space restarts it with the circle at the origin. */
  function Restart(s: AxeState, space: bool): (r: AxeState)
    ensures s.collided && space ==> !r.collided && r.circleX == 0 && r.circleY == 0
    ensures s.collided && space ==> r.rectY == s.rectY && r.rectDirection == s.rectDirection
    ensures !(s.collided && space) ==> r == s
  {
    if s.collided && space then s.(collided := false, circleX := 0, circleY := 0) else s
  }

  /** One iteration of the game loop: the logic, then the restart check. The restart never
      touches the square; the game is over afterwards iff the logic ended it and space is
      not held; a restarted circle is back at the origin. */
  function Step(s: AxeState, k: Keys): (r: AxeState)
    ensures r.rectY == Logic(s, k).rectY && r.rectDirection == Logic(s, k).rectDirection
    ensures r.collided <==> Logic(s, k).collided && !k.space
    ensures Logic(s, k).collided && k.space ==> r.circleX == 0 && r.circleY == 0
    ensures !Logic(s, k).collided ==> r == Logic(s, k)
  {
    Restart(Logic(s, k), k.space)
  }

  /** The state after playing the frames in order. Every state the loop reaches satisfies
      the invariant `Sane`. */
  function Replay(frames: seq<Keys>): (r: AxeState)
    ensures Sane(r)
  {
    if frames == [] then Initial()
    else
      var before := Replay(frames[..|frames| - 1]);
      StepKeepsSane(before, frames[|frames| - 1]);
      Step(before, frames[|frames| - 1])
  }

  /** What holds of every state the loop reaches: the square's speed is 10 or -10; going
      down it is at most at the bounce line, going up at most one step below it and at
      least at the top, and the circle's centre is never more than one fast step off the
      screen. */
  predicate Sane(s: AxeState) {
    && (s.rectDirection == RectSpeed || s.rectDirection == -RectSpeed)
    && (s.rectDirection == RectSpeed ==> -RectSpeed <= s.rectY <= ScreenHeight - RectSize)
    && (s.rectDirection == -RectSpeed ==> 0 <= s.rectY <= ScreenHeight - RectSize + RectSpeed)
    && -8 < s.circleX < ScreenWidth + 8
    && -8 < s.circleY < ScreenHeight + 8
  }

  /** The invariant is kept by every frame, whatever the keys. */
  lemma StepKeepsSane(s: AxeState, k: Keys)
    requires Sane(s)
    ensures Sane(Step(s, k))
  {
  }

  /** So the square never leaves the band from one step above the screen's top to one step
      below the bounce line, and its speed stays 10 or -10. */
  lemma RectStaysInBand(frames: seq<Keys>)
    ensures -RectSpeed <= Replay(frames).rectY <= ScreenHeight - RectSize + RectSpeed
    ensures Replay(frames).rectDirection == RectSpeed || Replay(frames).rectDirection == -RectSpeed
  {
  }

  /** While the game is over and space is not held, a frame changes nothing. */
  lemma GameOverFreezes(s: AxeState, k: Keys)
    requires s.collided && !k.space
    ensures Step(s, k) == s
  {
  }

  /** After a frame with space held the game is never over: a collision detected in that
      same frame is cleared at once. */
  lemma SpaceNeverEndsOver(s: AxeState, k: Keys)
    requires k.space
    ensures !Step(s, k).collided
  {
  }

  /** In a running game the circle moves at most one step of the frame's speed per axis. */
  lemma CircleMovesOneStep(s: AxeState, k: Keys)
    requires !s.collided
    ensures -CircleSpeed(k) <= Logic(s, k).circleX - s.circleX <= CircleSpeed(k)
    ensures -CircleSpeed(k) <= Logic(s, k).circleY - s.circleY <= CircleSpeed(k)
  {
  }

  /** A left or upward move needs a positive coordinate, so holding only `a` at the left
      edge, or only `w` at the top, leaves the circle where it is. */
  lemma EdgesStopTheCircle(s: AxeState, k: Keys)
    requires !s.collided
    ensures !k.d && s.circleX <= 0 ==> Logic(s, k).circleX == s.circleX
    ensures !k.s && s.circleY <= 0 ==> Logic(s, k).circleY == s.circleY
    ensures !k.a && s.circleX >= ScreenWidth ==> Logic(s, k).circleX == s.circleX
    ensures !k.w && s.circleY >= ScreenHeight ==> Logic(s, k).circleY == s.circleY
  {
  }

  /** Lines 46-81, on the loop's variables while the game is running: the edges are taken,
      then the circle and the square move, then the edges decide whether the game is over. */
  method RunLogic(circleX0: int, circleY0: int, rectY0: int, rectDirection0: int, k: Keys)
    returns (circleX: int, circleY: int, rectY: int, rectDirection: int, collided: bool)
    ensures AxeState(circleX, circleY, rectY, rectDirection, collided)
            == Logic(AxeState(circleX0, circleY0, rectY0, rectDirection0, false), k)
  {
    circleX, circleY, rectY, rectDirection := circleX0, circleY0, rectY0, rectDirection0;
    var leftCircleX := circleX - CircleRadius;
    var rightCircleX := circleX + CircleRadius;
    var topCircleY := circleY - CircleRadius;
    var bottomCircleY := circleY + CircleRadius;
    var leftRectX := RectX;
    var rightRectX := RectX + RectSize;
    var topRectY := rectY;
    var bottomRectY := rectY + RectSize;
    var circleSpeed := if k.shift then 8 else 4;
    circleX := StepAxis(circleX, k.a, k.d, ScreenWidth, circleSpeed);
    circleY := StepAxis(circleY, k.w, k.s, ScreenHeight, circleSpeed);
    rectY, rectDirection := MoveRect(rectY, rectDirection);
    collided := topCircleY <= bottomRectY && bottomCircleY >= topRectY
      && rightCircleX >= leftRectX && leftCircleX <= rightRectX;
  }

  /** Lines 58-72 for one axis: the coordinate moves back while positive, then forth while
      below the screen's size. */
  method StepAxis(c0: int, back: bool, forth: bool, size: int, speed: int) returns (c: int)
    ensures c == MoveAxis(c0, back, forth, size, speed)
  {
    c := c0;
    if back && c > 0 {
      c := c - speed;
    }
    if forth && c < size {
      c := c + speed;
    }
  }

  /** Lines 75-78: the square moves by its speed, which is negated once the square is
      past the bounce line or above the screen. */
  method MoveRect(rectY0: int, rectDirection0: int) returns (rectY: int, rectDirection: int)
    ensures rectY == rectY0 + rectDirection0
    ensures rectDirection == if rectY > ScreenHeight - RectSize || rectY < 0 then -rectDirection0 else rectDirection0
  {
    rectY, rectDirection := rectY0, rectDirection0;
    rectY := rectY + rectDirection;
    if rectY > ScreenHeight - RectSize || rectY < 0 {
      rectDirection := -rectDirection;
    }
  }

  /** One pass of the loop body (lines 42-96) on the loop's variables. */
  method Tick(circleX0: int, circleY0: int, rectY0: int, rectDirection0: int, collided0: bool, k: Keys)
    returns (circleX: int, circleY: int, rectY: int, rectDirection: int, collided: bool)
    ensures AxeState(circleX, circleY, rectY, rectDirection, collided)
            == Step(AxeState(circleX0, circleY0, rectY0, rectDirection0, collided0), k)
  {
    circleX, circleY, rectY, rectDirection, collided := circleX0, circleY0, rectY0, rectDirection0, collided0;
    if !collided {
      circleX, circleY, rectY, rectDirection, collided := RunLogic(circleX, circleY, rectY, rectDirection, k);
    }
    if collided && k.space {
      collided := false;
      circleX := 0;
      circleY := 0;
    }
  }

  /** Replaying one more frame is one more step. */
  lemma ReplayOneMore(frames: seq<Keys>, i: nat)
    requires i < |frames|
    ensures Replay(frames[..i + 1]) == Step(Replay(frames[..i]), frames[i])
  {
    assert frames[..i + 1][..i] == frames[..i];
  }

  /** The game loop, over the key states of its frames; the loop's variables are updated in
      place frame after frame. */
  method Play(frames: seq<Keys>) returns (final: AxeState)
    ensures final == Replay(frames)
    ensures Sane(final)
  {
    var circleX, circleY := 0, 0;
    var rectY, rectDirection := 80, RectSpeed;
    var collided := false;
    var i := 0;
    while i < |frames|
      invariant 0 <= i <= |frames|
      invariant AxeState(circleX, circleY, rectY, rectDirection, collided) == Replay(frames[..i])
      invariant Sane(AxeState(circleX, circleY, rectY, rectDirection, collided))
    {
      var k := frames[i];
      circleX, circleY, rectY, rectDirection, collided := Tick(circleX, circleY, rectY, rectDirection, collided, k);
      ReplayOneMore(frames, i);
      i := i + 1;
    }
    assert frames[..i] == frames;
    final := AxeState(circleX, circleY, rectY, rectDirection, collided);
  }
}
