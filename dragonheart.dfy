/** The Dragonheart side-scroller: the dragon, obstacles, hearts and the
    per-tick passes that move and remove them. */
module Dragonheart {
  import opened Randomness
  import opened Geometry

  const DragonInitialLives: int := 3
  const DragonMaxLives: int := 3
  /** The dragon's fixed horizontal position, `width / 4`. */
  const DragonX: real := CanvasWidth / 4.0
  const DragonSize: real := 60.0
  const Gravity: real := 0.6
  const JumpForce: real := -10.0
  /** The lowest position `update` allows, `height - size`. */
  const DragonFloor: real := CanvasHeight - DragonSize
  const InitialGameSpeed: real := 4.0
  const HeartSize: real := 30.0

  const MinObstacleInterval: real := 1000.0
  const MaxObstacleInterval: real := 2000.0
  const MinHeartInterval: real := 5000.0
  const MaxHeartInterval: real := 10000.0

  /** The player. `x`, `size`, `gravity` and `jumpForce` never change and are
      the module constants above. */
  class Dragon {
    var y: real
    var vy: real
    var lives: int

    constructor ()
      ensures y == CanvasHeight / 2.0 && vy == 0.0 && lives == DragonInitialLives
    {
      y := CanvasHeight / 2.0;
      vy := 0.0;
      lives := DragonInitialLives;
    }

    /** `jump`: the velocity becomes the jump force, whatever it was. */
    method Jump()
      modifies this
      ensures vy == JumpForce && y == old(y) && lives == old(lives)
    {
      vy := JumpForce;
    }

    /** `update`: gravity, then motion, then the position is clamped to the
        play area; the velocity is not reset at the clamp. */
    method Update()
      modifies this
      ensures vy == old(vy) + Gravity
      ensures y == Constrain(old(y) + vy, 0.0, DragonFloor)
      ensures 0.0 <= y <= DragonFloor
      ensures lives == old(lives)
    {
      vy := vy + Gravity;
      y := y + vy;
      y := Constrain(y, 0.0, DragonFloor);
    }

    /** `hits`: the dragon's bounding square overlaps the obstacle. */
    predicate Hits(o: Obstacle)
      reads this
    {
      HitsAt(y, o)
    }

    /** `collects`, with the distance test squared. */
    predicate Collects(h: Heart)
      reads this
    {
      CollectsAt(y, h)
    }

    /** `takeDamage`: one life less; `gameOver` reports that the game must end,
        which the source does by setting the global state itself. */
    method TakeDamage() returns (gameOver: bool)
      modifies this
      ensures lives == old(lives) - 1
      ensures gameOver <==> lives <= 0
      ensures y == old(y) && vy == old(vy)
    {
      lives := lives - 1;
      gameOver := lives <= 0;
    }

    /** `heal`: one life more, but never beyond the maximum. */
    method Heal()
      modifies this
      ensures lives == Healed(old(lives), 1)
      ensures old(lives) <= DragonMaxLives ==> lives <= DragonMaxLives
      ensures y == old(y) && vy == old(vy)
    {
      if lives < DragonMaxLives {
        lives := lives + 1;
      }
    }
  }

  /** An obstacle: its top-left corner, its size and its leftward speed. */
  datatype Obstacle = Obstacle(x: real, y: real, width: real, height: real, speed: real)

  /** A heart pickup. */
  datatype Heart = Heart(x: real, y: real, size: real, speed: real)

  /** `Obstacle`'s constructor with its three draws (width, height, y). */
  function NewObstacle(uw: real, uh: real, uy: real, speed: real): (o: Obstacle)
    requires IsUnit(uw) && IsUnit(uh) && IsUnit(uy)
    ensures o.x == CanvasWidth && o.speed == speed
    ensures 40.0 <= o.width < 80.0
    ensures 50.0 <= o.height < CanvasHeight / 2.0 - 50.0
    ensures 0.0 <= o.y && o.y + o.height < CanvasHeight
  {
    var w := RandomBetween(uw, 40.0, 80.0);
    var h := RandomBetween(uh, 50.0, CanvasHeight / 2.0 - 50.0);
    Obstacle(CanvasWidth, RandomBetween(uy, 0.0, CanvasHeight - h), w, h, speed)
  }

  /** `Heart`'s constructor with its one draw (y). */
  function NewHeart(uy: real, speed: real): (h: Heart)
    requires IsUnit(uy)
    ensures h.x == CanvasWidth && h.size == HeartSize && h.speed == speed
    ensures 50.0 <= h.y < CanvasHeight - 50.0
  {
    Heart(CanvasWidth, RandomBetween(uy, 50.0, CanvasHeight - 50.0), HeartSize, speed)
  }

  /** `Obstacle.update`. */
  function MoveObstacle(o: Obstacle): (m: Obstacle)
    ensures m.x == o.x - o.speed
    ensures m.y == o.y && m.width == o.width && m.height == o.height && m.speed == o.speed
  {
    o.(x := o.x - o.speed)
  }

  /** `Heart.update`. */
  function MoveHeart(h: Heart): (m: Heart)
    ensures m.x == h.x - h.speed
    ensures m.y == h.y && m.size == h.size && m.speed == h.speed
  {
    h.(x := h.x - h.speed)
  }

  predicate ObstacleOffscreen(o: Obstacle) {
    o.x < -o.width
  }

  predicate HeartOffscreen(h: Heart) {
    h.x < -h.size
  }

  /** The dragon, at height `dy`, hits `o`: its bounding square, centred on
      the dragon, overlaps the obstacle's rectangle. */
  predicate HitsAt(dy: real, o: Obstacle) {
    CollideRectRect(DragonX - DragonSize / 2.0, dy - DragonSize / 2.0, DragonSize, DragonSize,
                    o.x, o.y, o.width, o.height)
  }

  /** The dragon, at height `dy`, collects `h`: the centres of the two circles
      are closer than the sum of the radii (compared squared, both sides
      being non-negative). */
  predicate CollectsAt(dy: real, h: Heart) {
    var dx := DragonX - (h.x + h.size / 2.0);
    var dyc := dy - (h.y + h.size / 2.0);
    var reach := DragonSize / 2.0 + h.size / 2.0;
    reach > 0.0 && dx * dx + dyc * dyc < reach * reach
  }

  /** An obstacle of non-negative size is hit exactly when some point lies both
      in the dragon's bounding square and in the obstacle. */
  lemma HitsIffCommonPoint(dy: real, o: Obstacle)
    requires o.width >= 0.0 && o.height >= 0.0
    ensures HitsAt(dy, o) <==>
      exists px: real, py: real ::
        && InClosedRect(px, py, DragonX - DragonSize / 2.0, dy - DragonSize / 2.0, DragonSize, DragonSize)
        && InClosedRect(px, py, o.x, o.y, o.width, o.height)
  {
    CollideIffCommonPoint(DragonX - DragonSize / 2.0, dy - DragonSize / 2.0, DragonSize, DragonSize,
                          o.x, o.y, o.width, o.height);
  }

  /** The squared test agrees with the source's `dist(...) < r1 + r2`: for the
      distance `d` between the two centres, the heart is collected exactly when
      `d` is below the sum of the radii. */
  lemma CollectsIffCloserThanReach(dy: real, h: Heart, d: real)
    requires d >= 0.0
    requires d * d == (DragonX - (h.x + h.size / 2.0)) * (DragonX - (h.x + h.size / 2.0))
                      + (dy - (h.y + h.size / 2.0)) * (dy - (h.y + h.size / 2.0))
    ensures CollectsAt(dy, h) <==> d < DragonSize / 2.0 + h.size / 2.0
  {
    var reach := DragonSize / 2.0 + h.size / 2.0;
    if reach > 0.0 {
      SquaresOrdered(d, reach);
    }
  }

  /** Between non-negative numbers, squaring keeps the order. */
  lemma SquaresOrdered(a: real, b: real)
    requires a >= 0.0 && b > 0.0
    ensures a < b <==> a * a < b * b
  {
    var aa, ab, bb := a * a, a * b, b * b;
    if a < b {
      assert aa <= ab && ab < bb;
    } else {
      assert aa >= ab && ab >= bb;
    }
  }

  /** An obstacle is off-screen once its right edge has passed the left border
      of the canvas, and moving it left keeps it there. */
  lemma ObstacleOffscreenStays(o: Obstacle)
    ensures ObstacleOffscreen(o) <==> o.x + o.width < 0.0
    ensures ObstacleOffscreen(o) && o.speed >= 0.0 ==> ObstacleOffscreen(MoveObstacle(o))
  {
  }

  /** A heart is off-screen once its right edge has passed the left border of
      the canvas, and moving it left keeps it there. */
  lemma HeartOffscreenStays(h: Heart)
    ensures HeartOffscreen(h) <==> h.x + h.size < 0.0
    ensures HeartOffscreen(h) && h.speed >= 0.0 ==> HeartOffscreen(MoveHeart(h))
  {
  }

  /** What a tick does to one obstacle or heart, judged after it has moved:
      the dragon touches it (an obstacle hits, a heart is collected), or it
      has left the screen (an obstacle scores), or it is kept. The touch test
      comes first, the off-screen test only when there was no touch. */
  datatype Fate = Touched | Offscreen | Kept

  function ObstacleFate(dy: real, o: Obstacle): Fate {
    var m := MoveObstacle(o);
    if HitsAt(dy, m) then Touched else if ObstacleOffscreen(m) then Offscreen else Kept
  }

  /** What a tick does to one heart: collected, gone off-screen, or kept. */
  function HeartFate(dy: real, h: Heart): Fate {
    var m := MoveHeart(h);
    if CollectsAt(dy, m) then Touched else if HeartOffscreen(m) then Offscreen else Kept
  }

  /** The obstacles a tick keeps, moved, in their original order. */
  function ObstacleSurvivors(dy: real, os: seq<Obstacle>): (r: seq<Obstacle>)
    ensures |r| <= |os|
    ensures forall k :: 0 <= k < |r| ==> !HitsAt(dy, r[k]) && !ObstacleOffscreen(r[k])
  {
    if os == [] then []
    else (if ObstacleFate(dy, os[0]) == Kept then [MoveObstacle(os[0])] else [])
         + ObstacleSurvivors(dy, os[1..])
  }

  /** The number of obstacles with the given fate. */
  function CountObstacles(dy: real, os: seq<Obstacle>, f: Fate): (n: nat)
    ensures n <= |os|
  {
    if os == [] then 0
    else (if ObstacleFate(dy, os[0]) == f then 1 else 0) + CountObstacles(dy, os[1..], f)
  }

  /** The hearts a tick keeps, moved, in their original order. */
  function HeartSurvivors(dy: real, hs: seq<Heart>): (r: seq<Heart>)
    ensures |r| <= |hs|
    ensures forall k :: 0 <= k < |r| ==> !CollectsAt(dy, r[k]) && !HeartOffscreen(r[k])
  {
    if hs == [] then []
    else (if HeartFate(dy, hs[0]) == Kept then [MoveHeart(hs[0])] else [])
         + HeartSurvivors(dy, hs[1..])
  }

  function CountHearts(dy: real, hs: seq<Heart>, f: Fate): (n: nat)
    ensures n <= |hs|
  {
    if hs == [] then 0
    else (if HeartFate(dy, hs[0]) == f then 1 else 0) + CountHearts(dy, hs[1..], f)
  }

  /** Every obstacle leaves the pass for exactly one reason, or stays. */
  lemma {:induction false} ObstaclePartition(dy: real, os: seq<Obstacle>)
    ensures |ObstacleSurvivors(dy, os)| + CountObstacles(dy, os, Touched) + CountObstacles(dy, os, Offscreen) == |os|
    ensures |ObstacleSurvivors(dy, os)| == CountObstacles(dy, os, Kept)
  {
    if os != [] {
      ObstaclePartition(dy, os[1..]);
    }
  }

  /** Every heart leaves the pass for exactly one reason, or stays. */
  lemma {:induction false} HeartPartition(dy: real, hs: seq<Heart>)
    ensures |HeartSurvivors(dy, hs)| + CountHearts(dy, hs, Touched) + CountHearts(dy, hs, Offscreen) == |hs|
    ensures |HeartSurvivors(dy, hs)| == CountHearts(dy, hs, Kept)
  {
    if hs != [] {
      HeartPartition(dy, hs[1..]);
    }
  }

  /** The pass treats the obstacles one by one: splitting the list splits
      the survivors, so survivors keep their relative order. */
  lemma {:induction false} ObstacleSurvivorsAppend(dy: real, a: seq<Obstacle>, b: seq<Obstacle>)
    ensures ObstacleSurvivors(dy, a + b) == ObstacleSurvivors(dy, a) + ObstacleSurvivors(dy, b)
    ensures CountObstacles(dy, a + b, Offscreen) == CountObstacles(dy, a, Offscreen) + CountObstacles(dy, b, Offscreen)
    ensures CountObstacles(dy, a + b, Touched) == CountObstacles(dy, a, Touched) + CountObstacles(dy, b, Touched)
  {
    if a == [] {
      assert a + b == b;
    } else {
      assert (a + b)[1..] == a[1..] + b;
      ObstacleSurvivorsAppend(dy, a[1..], b);
    }
  }

  /** As for obstacles, the heart survivors keep their relative order. */
  lemma {:induction false} HeartSurvivorsAppend(dy: real, a: seq<Heart>, b: seq<Heart>)
    ensures HeartSurvivors(dy, a + b) == HeartSurvivors(dy, a) + HeartSurvivors(dy, b)
    ensures CountHearts(dy, a + b, Touched) == CountHearts(dy, a, Touched) + CountHearts(dy, b, Touched)
  {
    if a == [] {
      assert a + b == b;
    } else {
      assert (a + b)[1..] == a[1..] + b;
      HeartSurvivorsAppend(dy, a[1..], b);
    }
  }

  /** Moving keeps the speed, so the survivors of a pass still share one speed. */
  lemma {:induction false} SurvivorsKeepSpeed(dy: real, os: seq<Obstacle>, hs: seq<Heart>, speed: real)
    requires forall o :: o in os ==> o.speed == speed
    requires forall h :: h in hs ==> h.speed == speed
    ensures forall o :: o in ObstacleSurvivors(dy, os) ==> o.speed == speed
    ensures forall h :: h in HeartSurvivors(dy, hs) ==> h.speed == speed
    decreases |os| + |hs|
  {
    if os != [] {
      assert os[0] in os;
      SurvivorsKeepSpeed(dy, os[1..], [], speed);
    }
    if hs != [] {
      assert hs[0] in hs;
      SurvivorsKeepSpeed(dy, [], hs[1..], speed);
    }
  }

  /** The lives after `k` calls of `heal`, starting from `lives`. */
  function Healed(lives: int, k: nat): (r: int)
    ensures r >= lives
    ensures lives <= DragonMaxLives ==> r == if lives + k < DragonMaxLives then lives + k else DragonMaxLives
    ensures lives > DragonMaxLives ==> r == lives
    decreases k
  {
    if k == 0 then lives
    else Healed(if lives < DragonMaxLives then lives + 1 else lives, k - 1)
  }

  /** End-to-end scenario: one obstacle right on the dragon is a hit; it is
      removed and does not count as passed. */
  lemma OverlappingObstacleIsHit(dy: real)
    ensures var o := Obstacle(DragonX + 4.0, dy, 50.0, 100.0, InitialGameSpeed);
      && ObstacleFate(dy, o) == Touched
      && ObstacleSurvivors(dy, [o]) == []
      && CountObstacles(dy, [o], Touched) == 1
      && CountObstacles(dy, [o], Offscreen) == 0
  {
  }
}
