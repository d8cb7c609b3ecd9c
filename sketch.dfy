/** The sketch's global state and its two entry points: the per-frame `draw`
    and the pointer handler `mousePressed`, with the menu, the round timer and
    the per-game click and tick handlers they dispatch to. */
module Sketch {
  import opened Opt
  import opened Randomness
  import opened Geometry
  import opened Timer
  import opened ColorGame
  import opened MathGame
  import opened Dragonheart

  /** `GAME_STATE`. */
  datatype GameState = Menu | PlayingColor | PlayingMath | PlayingDragon | GameOver

  /** The random draws a click may need: two for a colour round, three for a
      maths problem, a run of them for the choice loop and three for the shuffle. */
  datatype Draws = Draws(target: real, display: real,
                         num1: real, num2: real, operation: real,
                         choices: seq<real>, shuffle: seq<real>)

  predicate DrawsOk(d: Draws) {
    && IsUnit(d.target) && IsUnit(d.display)
    && IsUnit(d.num1) && IsUnit(d.num2) && IsUnit(d.operation)
    && AllUnit(d.choices) && AllUnit(d.shuffle) && |d.shuffle| == NumMathChoices - 1
  }

  /** The choice draws of `d` are enough for the maths round its problem draws set. */
  predicate RoundDrawable(d: Draws)
    requires DrawsOk(d)
  {
    ChoicesComplete(NewProblem(d.num1, d.num2, d.operation).correctAnswer, d.choices)
  }

  /** The random draws one Dragonheart tick may need. */
  datatype TickDraws = TickDraws(obstacleGap: real, obstacleWidth: real, obstacleHeight: real,
                                 obstacleY: real, heartGap: real, heartY: real)

  predicate TickDrawsOk(t: TickDraws) {
    && IsUnit(t.obstacleGap) && IsUnit(t.obstacleWidth) && IsUnit(t.obstacleHeight)
    && IsUnit(t.obstacleY) && IsUnit(t.heartGap) && IsUnit(t.heartY)
  }

  // The three menu buttons of `drawMenuScreen` / `handleMenuClick`, in CENTER mode.
  const MenuButtonX: real := CanvasWidth / 2.0
  const MenuButtonWidth: real := 300.0
  const MenuButtonHeight: real := 80.0
  const ColorButtonY: real := CanvasHeight / 2.0 - 70.0
  const MathButtonY: real := CanvasHeight / 2.0 + 30.0
  const DragonButtonY: real := CanvasHeight / 2.0 + 130.0

  predicate OnColorButton(mx: real, my: real) {
    IsButtonClicked(mx, my, MenuButtonX, ColorButtonY, MenuButtonWidth, MenuButtonHeight)
  }

  predicate OnMathButton(mx: real, my: real) {
    IsButtonClicked(mx, my, MenuButtonX, MathButtonY, MenuButtonWidth, MenuButtonHeight)
  }

  predicate OnDragonButton(mx: real, my: real) {
    IsButtonClicked(mx, my, MenuButtonX, DragonButtonY, MenuButtonWidth, MenuButtonHeight)
  }

  /** The menu buttons are stacked with gaps: a click is on at most one of them. */
  lemma MenuButtonsDisjoint(mx: real, my: real)
    ensures !(OnColorButton(mx, my) && OnMathButton(mx, my))
    ensures !(OnColorButton(mx, my) && OnDragonButton(mx, my))
    ensures !(OnMathButton(mx, my) && OnDragonButton(mx, my))
  {
  }

  /** `millis() - lastTime > random(lo, hi)`: the spawn test of one tick. */
  predicate SpawnDue(now: real, lastTime: real, u: real, lo: real, hi: real)
    requires IsUnit(u) && lo < hi
  {
    now - lastTime > RandomBetween(u, lo, hi)
  }

  /** Whatever the draw, a spawn is due once more than `hi` has passed since the
      last one, and never while at most `lo` has passed. */
  lemma SpawnDueWindow(now: real, lastTime: real, u: real, lo: real, hi: real)
    requires IsUnit(u) && lo < hi
    ensures now - lastTime >= hi ==> SpawnDue(now, lastTime, u, lo, hi)
    ensures now - lastTime <= lo ==> !SpawnDue(now, lastTime, u, lo, hi)
  {
  }

  /** The obstacle list after the spawn step of a tick. */
  function ObstaclesAfterSpawn(os: seq<Obstacle>, now: real, last: real, t: TickDraws, speed: real): seq<Obstacle>
    requires TickDrawsOk(t)
  {
    if SpawnDue(now, last, t.obstacleGap, MinObstacleInterval, MaxObstacleInterval)
    then os + [NewObstacle(t.obstacleWidth, t.obstacleHeight, t.obstacleY, speed)]
    else os
  }

  /** The heart list after the spawn step of a tick. */
  function HeartsAfterSpawn(hs: seq<Heart>, now: real, last: real, t: TickDraws, speed: real): seq<Heart>
    requires TickDrawsOk(t)
  {
    if SpawnDue(now, last, t.heartGap, MinHeartInterval, MaxHeartInterval)
    then hs + [NewHeart(t.heartY, speed)]
    else hs
  }

  /** Cutting `front + rest` around index `i`, the last index of `front`, and
      putting `kept` in place of element `i`. */
  lemma SpliceStep<T>(front: seq<T>, rest: seq<T>, i: nat, kept: seq<T>)
    requires |front| == i + 1
    ensures (front + rest)[i] == front[i]
    ensures (front + rest)[..i] + kept + (front + rest)[i + 1..] == front[..i] + (kept + rest)
  {
    assert (front + rest)[..i] == front[..i];
    assert (front + rest)[i + 1..] == rest;
  }

  /** One step of the reverse obstacle loop: the suffix from `i` is obstacle `i`
      followed by the suffix from `i + 1`. */
  lemma ObstacleStep(dy: real, os: seq<Obstacle>, i: int)
    requires 0 <= i < |os|
    ensures ObstacleSurvivors(dy, os[i..]) ==
      (if ObstacleFate(dy, os[i]) == Kept then [MoveObstacle(os[i])] else []) + ObstacleSurvivors(dy, os[i + 1..])
    ensures forall f :: (CountObstacles(dy, os[i..], f) ==
      (if ObstacleFate(dy, os[i]) == f then 1 else 0) + CountObstacles(dy, os[i + 1..], f))
    ensures os[..i + 1][..i] == os[..i]
  {
    assert os[i..][0] == os[i] && os[i..][1..] == os[i + 1..];
  }

  /** One step of the reverse heart loop. */
  lemma HeartStep(dy: real, hs: seq<Heart>, i: int)
    requires 0 <= i < |hs|
    ensures HeartSurvivors(dy, hs[i..]) ==
      (if HeartFate(dy, hs[i]) == Kept then [MoveHeart(hs[i])] else []) + HeartSurvivors(dy, hs[i + 1..])
    ensures forall f :: (CountHearts(dy, hs[i..], f) ==
      (if HeartFate(dy, hs[i]) == f then 1 else 0) + CountHearts(dy, hs[i + 1..], f))
    ensures hs[..i + 1][..i] == hs[..i]
  {
    assert hs[i..][0] == hs[i] && hs[i..][1..] == hs[i + 1..];
  }

  /** A snapshot of every global, for stating what a handler leaves alone. */
  datatype Globals = Globals(
    currentState: GameState, score: nat, timeLimit: int, roundStartTime: real,
    targetIndex: int, displayIndex: int,
    num1: int, num2: int, operation: Op, correctAnswer: int, mathChoices: seq<int>,
    dragon: Dragon?, obstacles: seq<Obstacle>, hearts: seq<Heart>,
    dragonGameSpeed: real, lastObstacleTime: real, lastHeartTime: real)

  /** The maths round the draws `d` give. */
  function RoundOf(d: Draws): MathRound
    requires DrawsOk(d)
  {
    DrawnRound(d.num1, d.num2, d.operation, d.choices, d.shuffle)
  }

  /** The globals `v` with the maths round `r` installed. */
  function WithRound(v: Globals, r: MathRound): Globals {
    v.(num1 := r.problem.num1, num2 := r.problem.num2, operation := r.problem.operation,
       correctAnswer := r.problem.correctAnswer, mathChoices := r.choices)
  }

  /** What a menu click does, from the globals `v0` to `v`: a button starts its
      game with score 0, the initial time limit and a new round start; the maths
      button is refused (`ok` false, nothing changes) exactly when its round
      cannot be drawn; a click beside the buttons changes nothing. */
  predicate MenuClickEffect(v0: Globals, v: Globals, ok: bool, mx: real, my: real, now: real, d: Draws)
    requires DrawsOk(d)
  {
    if OnColorButton(mx, my) then
      ok && v == v0.(currentState := PlayingColor, score := 0, timeLimit := InitialTimeLimit,
                     roundStartTime := now, targetIndex := PickColorIndex(d.target),
                     displayIndex := PickColorIndex(d.display))
    else if OnMathButton(mx, my) then
      && (ok <==> RoundDrawable(d))
      && v == if ok then WithRound(v0, RoundOf(d)).(currentState := PlayingMath, score := 0,
                                                   timeLimit := InitialTimeLimit, roundStartTime := now)
              else v0
    else if OnDragonButton(mx, my) then
      ok && v == v0.(currentState := PlayingDragon, score := 0, timeLimit := InitialTimeLimit,
                     roundStartTime := now, dragon := v.dragon, obstacles := [], hearts := [],
                     dragonGameSpeed := InitialGameSpeed, lastObstacleTime := now, lastHeartTime := now)
    else ok && v == v0
  }

  /** What a colour-game click does: the target swatch scores a point and starts
      a new round, any other swatch ends the game, a click beside the swatches
      changes nothing. */
  predicate ColorClickEffect(v0: Globals, v: Globals, mx: real, my: real, now: real,
                             uTarget: real, uDisplay: real)
    requires IsUnit(uTarget) && IsUnit(uDisplay)
  {
    && (forall i :: 0 <= i < |Palette| && InSwatch(i, mx, my) ==>
          v == if i == v0.targetIndex
               then v0.(score := v0.score + 1, timeLimit := NextTimeLimit(v0.score + 1),
                        roundStartTime := now, targetIndex := PickColorIndex(uTarget),
                        displayIndex := PickColorIndex(uDisplay))
               else v0.(currentState := GameOver))
    && ((forall i :: 0 <= i < |Palette| ==> !InSwatch(i, mx, my)) ==> v == v0)
  }

  /** What a maths-game click does: the button showing the answer scores a point
      and installs the round the draws give, and is refused (`ok` false, nothing
      changes) exactly when that round cannot be drawn; any other button ends
      the game; a click beside the buttons changes nothing. */
  predicate MathClickEffect(v0: Globals, v: Globals, ok: bool, mx: real, my: real, now: real, d: Draws)
    requires DrawsOk(d)
  {
    && (forall i :: 0 <= i < |v0.mathChoices| && InButton(i, mx, my) ==>
          if v0.mathChoices[i] == v0.correctAnswer
          then && (ok <==> RoundDrawable(d))
               && v == if ok then WithRound(v0, RoundOf(d)).(score := v0.score + 1,
                                                            timeLimit := NextTimeLimit(v0.score + 1),
                                                            roundStartTime := now)
                       else v0
          else ok && v == v0.(currentState := GameOver))
    && ((forall i :: 0 <= i < |v0.mathChoices| ==> !InButton(i, mx, my)) ==> ok && v == v0)
  }

  /** The effect of a maths click follows from what happened at the one
      button the scan found, or from the pointer missing every button. */
  lemma MathClickAt(v0: Globals, v: Globals, ok: bool, mx: real, my: real, now: real, d: Draws, c: Option<int>)
    requires DrawsOk(d)
    requires forall i :: 0 <= i < |v0.mathChoices| ==> (InButton(i, mx, my) <==> c == Some(i))
    requires c.None? ==> ok && v == v0
    requires c.Some? ==> 0 <= c.value < |v0.mathChoices|
    requires c.Some? && v0.mathChoices[c.value] == v0.correctAnswer ==>
      && (ok <==> RoundDrawable(d))
      && v == if ok then WithRound(v0, RoundOf(d)).(score := v0.score + 1,
                                                   timeLimit := NextTimeLimit(v0.score + 1),
                                                   roundStartTime := now)
              else v0
    requires c.Some? && v0.mathChoices[c.value] != v0.correctAnswer ==> ok && v == v0.(currentState := GameOver)
    ensures MathClickEffect(v0, v, ok, mx, my, now, d)
  {
  }

  class Game {
    var currentState: GameState
    var score: nat
    var timeLimit: int
    var roundStartTime: real
    /** `randomIndex` of `setNewTargetColor`: the target's value is
        `Palette[targetIndex]` and its name `ColorNames[targetIndex]`. */
    var targetIndex: int
    /** The palette index of `textColorForDisplay`. */
    var displayIndex: int
    var num1: int
    var num2: int
    var operation: Op
    var correctAnswer: int
    var mathChoices: seq<int>
    var dragon: Dragon?
    var obstacles: seq<Obstacle>
    var hearts: seq<Heart>
    var dragonGameSpeed: real
    var lastObstacleTime: real
    var lastHeartTime: real

    ghost function View(): Globals
      reads this
    {
      Globals(currentState, score, timeLimit, roundStartTime, targetIndex, displayIndex,
              num1, num2, operation, correctAnswer, mathChoices,
              dragon, obstacles, hearts, dragonGameSpeed, lastObstacleTime, lastHeartTime)
    }

    function TargetColorValue(): Hsb
      reads this
      requires 0 <= targetIndex < |Palette|
    {
      Palette[targetIndex]
    }

    function TargetColorName(): string
      reads this
      requires 0 <= targetIndex < |Palette|
    {
      ColorNames[targetIndex]
    }

    function CurrentRound(): MathRound
      reads this
    {
      MathRound(Problem(num1, num2, operation, correctAnswer), mathChoices)
    }

    /** What holds in every state. */
    ghost predicate Consistent()
      reads this, dragon
    {
      && MinTimeLimit <= timeLimit <= InitialTimeLimit
      && 0 <= targetIndex < |Palette| && 0 <= displayIndex < |Palette|
      && (dragon != null ==>
            && 0.0 <= dragon.y <= DragonFloor && dragon.lives <= DragonMaxLives
            && dragonGameSpeed == InitialGameSpeed)
      && (forall o :: o in obstacles ==> o.speed == dragonGameSpeed)
      && (forall h :: h in hearts ==> h.speed == dragonGameSpeed)
    }

    /** `Consistent`, and the running game has its round set up: a timed game
        runs on the limit its score allows. */
    ghost predicate Valid()
      reads this, dragon
    {
      && Consistent()
      && (currentState in {PlayingColor, PlayingMath} ==> timeLimit == NextTimeLimit(score))
      && (currentState == PlayingMath ==> WellFormedRound(CurrentRound()))
      && (currentState == PlayingDragon ==> dragon != null)
    }

    /** The initial values of the globals; those the sketch leaves undefined
        until a game starts are given a placeholder here. */
    constructor ()
      ensures Valid()
      ensures currentState == Menu && score == 0 && timeLimit == InitialTimeLimit
      ensures dragon == null && obstacles == [] && hearts == [] && mathChoices == []
    {
      currentState := Menu;
      score := 0;
      timeLimit := InitialTimeLimit;
      roundStartTime := 0.0;
      targetIndex, displayIndex := 0, 0;
      num1, num2, operation, correctAnswer := 0, 0, Plus, 0;
      mathChoices := [];
      dragon := null;
      obstacles, hearts := [], [];
      dragonGameSpeed := 0.0;
      lastObstacleTime, lastHeartTime := 0.0, 0.0;
    }

    /** `updateTimer`: the round ends once no time is left. */
    method UpdateTimer(now: real)
      modifies this
      ensures View() == if Expired(old(timeLimit), old(roundStartTime), now)
                        then old(View()).(currentState := GameOver) else old(View())
    {
      var elapsedTime := now - roundStartTime;
      var remainingTime := timeLimit as real - elapsedTime;
      if remainingTime <= 0.0 {
        currentState := GameOver;
      }
    }

    /** `setNewTargetColor`: target and display colour drawn independently. */
    method SetNewTargetColor(uTarget: real, uDisplay: real)
      requires IsUnit(uTarget) && IsUnit(uDisplay)
      modifies this
      ensures View() == old(View()).(targetIndex := PickColorIndex(uTarget),
                                     displayIndex := PickColorIndex(uDisplay))
    {
      // The target's value and name both come from the one index, through
      // TargetColorValue and TargetColorName.
      targetIndex := PickColorIndex(uTarget);
      displayIndex := PickColorIndex(uDisplay);
    }

    /** `nextRoundColorGame`: a new target and a time limit shrunk by the score. */
    method NextRoundColorGame(now: real, uTarget: real, uDisplay: real)
      requires IsUnit(uTarget) && IsUnit(uDisplay)
      modifies this
      ensures View() == old(View()).(targetIndex := PickColorIndex(uTarget),
                                     displayIndex := PickColorIndex(uDisplay),
                                     timeLimit := NextTimeLimit(old(score)),
                                     roundStartTime := now)
    {
      SetNewTargetColor(uTarget, uDisplay);
      timeLimit := NextTimeLimit(score);
      roundStartTime := now;
    }

    /** The assignments of `generateNewMathProblem` and `generateMathChoices`,
        for a round that `MathGame.GenerateRound` has drawn. */
    method SetMathRound(r: MathRound)
      modifies this
      ensures CurrentRound() == r
      ensures View() == WithRound(old(View()), r)
    {
      num1, num2, operation := r.problem.num1, r.problem.num2, r.problem.operation;
      correctAnswer := r.problem.correctAnswer;
      mathChoices := r.choices;
    }

    /** `nextRoundMathGame`: the drawn round and a time limit shrunk by the score. */
    method NextRoundMathGame(now: real, r: MathRound)
      modifies this
      ensures CurrentRound() == r
      ensures View() == WithRound(old(View()), r).(timeLimit := NextTimeLimit(old(score)),
                                                   roundStartTime := now)
    {
      SetMathRound(r);
      timeLimit := NextTimeLimit(score);
      roundStartTime := now;
    }

    /** `resetDragonheartGame`: a fresh dragon, no obstacles or hearts, score 0. */
    method ResetDragonheartGame(now: real)
      modifies this
      ensures fresh(dragon)
      ensures dragon.y == CanvasHeight / 2.0 && dragon.vy == 0.0 && dragon.lives == DragonInitialLives
      ensures obstacles == [] && hearts == [] && score == 0 && dragonGameSpeed == InitialGameSpeed
      ensures lastObstacleTime == now && lastHeartTime == now
      ensures currentState == old(currentState) && timeLimit == old(timeLimit)
      ensures roundStartTime == old(roundStartTime)
      ensures targetIndex == old(targetIndex) && displayIndex == old(displayIndex)
      ensures num1 == old(num1) && num2 == old(num2) && operation == old(operation)
      ensures correctAnswer == old(correctAnswer) && mathChoices == old(mathChoices)
    {
      dragon := new Dragon();
      obstacles := [];
      hearts := [];
      score := 0;
      dragonGameSpeed := InitialGameSpeed;
      lastObstacleTime := now;
      lastHeartTime := now;
    }

    /** `resetGame`: score 0, the initial time limit, a new round start and the
        current game's own reset. `ok` is false exactly when a maths round is
        due and `d.choices` runs out before it is drawn; nothing changes then. */
    method ResetGame(now: real, d: Draws) returns (ok: bool)
      requires Consistent() && DrawsOk(d)
      modifies this
      ensures ok <==> old(currentState) != PlayingMath || RoundDrawable(d)
      ensures !ok ==> View() == old(View())
      ensures ok ==> Valid() && currentState == old(currentState)
      ensures ok ==> score == 0 && timeLimit == InitialTimeLimit && roundStartTime == now
      ensures ok && currentState == PlayingColor ==>
        View() == old(View()).(score := 0, timeLimit := InitialTimeLimit, roundStartTime := now,
                               targetIndex := PickColorIndex(d.target),
                               displayIndex := PickColorIndex(d.display))
      ensures ok && currentState == PlayingMath ==>
        View() == WithRound(old(View()), RoundOf(d)).(score := 0, timeLimit := InitialTimeLimit,
                                                      roundStartTime := now)
      ensures ok && currentState == PlayingDragon ==>
        && fresh(dragon) && dragon.y == CanvasHeight / 2.0 && dragon.vy == 0.0
        && dragon.lives == DragonInitialLives
        && View() == old(View()).(score := 0, timeLimit := InitialTimeLimit, roundStartTime := now,
                                  dragon := dragon, obstacles := [], hearts := [],
                                  dragonGameSpeed := InitialGameSpeed,
                                  lastObstacleTime := now, lastHeartTime := now)
      ensures ok && (currentState == Menu || currentState == GameOver) ==>
        View() == old(View()).(score := 0, timeLimit := InitialTimeLimit, roundStartTime := now)
    {
      var round: Option<MathRound> := None;
      if currentState == PlayingMath {
        round := GenerateRound(d.num1, d.num2, d.operation, d.choices, d.shuffle);
        if round.None? {
          return false;
        }
      }
      ok := true;
      score := 0;
      timeLimit := InitialTimeLimit;
      roundStartTime := now;
      assert timeLimit == NextTimeLimit(score);
      if currentState == PlayingColor {
        SetNewTargetColor(d.target, d.display);
      } else if currentState == PlayingMath {
        SetMathRound(round.value);
        assert WellFormedRound(CurrentRound());
      } else if currentState == PlayingDragon {
        ResetDragonheartGame(now);
      }
    }

    /** `handleMenuClick`: a click on a button starts that game; elsewhere it does nothing. */
    method HandleMenuClick(mx: real, my: real, now: real, d: Draws) returns (ok: bool)
      requires Valid() && currentState == Menu && DrawsOk(d)
      modifies this
      ensures Valid()
      ensures MenuClickEffect(old(View()), View(), ok, mx, my, now, d)
      ensures OnDragonButton(mx, my) ==>
        && fresh(dragon) && dragon.y == CanvasHeight / 2.0 && dragon.vy == 0.0
        && dragon.lives == DragonInitialLives
    {
      MenuButtonsDisjoint(mx, my);
      ok := true;
      if IsButtonClicked(mx, my, MenuButtonX, ColorButtonY, MenuButtonWidth, MenuButtonHeight) {
        currentState := PlayingColor;
        ok := ResetGame(now, d);
      } else if IsButtonClicked(mx, my, MenuButtonX, MathButtonY, MenuButtonWidth, MenuButtonHeight) {
        currentState := PlayingMath;
        ok := ResetGame(now, d);
        if !ok {
          currentState := Menu;
        }
      } else if IsButtonClicked(mx, my, MenuButtonX, DragonButtonY, MenuButtonWidth, MenuButtonHeight) {
        currentState := PlayingDragon;
        ok := ResetGame(now, d);
      }
    }

    /** `handleColorGameClick`: the target swatch scores and starts a new round,
        any other swatch ends the game, a click beside the swatches does nothing. */
    method HandleColorGameClick(mx: real, my: real, now: real, uTarget: real, uDisplay: real)
      requires Valid() && currentState == PlayingColor && IsUnit(uTarget) && IsUnit(uDisplay)
      modifies this
      ensures Valid()
      ensures ColorClickEffect(old(View()), View(), mx, my, now, uTarget, uDisplay)
    {
      var clicked := ClickedSwatch(mx, my);
      if clicked.Some? {
        ColorMatchIsIndexEquality(clicked.value, targetIndex);
        if ColorMatch(Palette[clicked.value], TargetColorValue()) {
          score := score + 1;
          NextRoundColorGame(now, uTarget, uDisplay);
        } else {
          currentState := GameOver;
        }
      }
    }

    /** The correct-answer branch of `handleMathGameClick`: one point more and
        the next maths round. `ok` is false exactly when `d.choices` runs out
        before that round is drawn; nothing changes then. */
    method ScoreMathAnswer(now: real, d: Draws) returns (ok: bool)
      requires Valid() && currentState == PlayingMath && DrawsOk(d)
      modifies this
      ensures ok <==> RoundDrawable(d)
      ensures !ok ==> View() == old(View())
      ensures ok ==>
        && Valid()
        && View() == WithRound(old(View()), RoundOf(d)).(score := old(score) + 1,
                                                         timeLimit := NextTimeLimit(old(score) + 1),
                                                         roundStartTime := now)
    {
      var round := GenerateRound(d.num1, d.num2, d.operation, d.choices, d.shuffle);
      if round.None? {
        return false;
      }
      ok := true;
      score := score + 1;
      NextRoundMathGame(now, round.value);
    }

    /** `handleMathGameClick`: the button showing the answer scores and starts a
        new round, any other button ends the game, a click beside the buttons
        does nothing. `ok` is false exactly when the answer was picked and
        `d.choices` runs out before the next round is drawn; nothing changes then. */
    method HandleMathGameClick(mx: real, my: real, now: real, d: Draws) returns (ok: bool)
      requires Valid() && currentState == PlayingMath && DrawsOk(d)
      modifies this
      ensures Valid()
      ensures !ok ==> View() == old(View())
      ensures MathClickEffect(old(View()), View(), ok, mx, my, now, d)
    {
      ghost var v0 := View();
      ok := true;
      var clicked := ClickedButton(mx, my, |mathChoices|);
      if clicked.Some? {
        if mathChoices[clicked.value] == correctAnswer {
          ok := ScoreMathAnswer(now, d);
        } else {
          currentState := GameOver;
          assert View() == v0.(currentState := GameOver);
        }
      }
      MathClickAt(v0, View(), ok, mx, my, now, d, clicked);
    }

    /** `handleDragonheartGameClick`: the dragon jumps. */
    method HandleDragonheartGameClick()
      requires Valid() && currentState == PlayingDragon
      modifies dragon
      ensures Valid()
      ensures dragon.vy == JumpForce && dragon.y == old(dragon.y) && dragon.lives == old(dragon.lives)
    {
      dragon.Jump();
    }

    /** `handleGameOverClick`: any click returns to the menu. */
    method HandleGameOverClick()
      modifies this
      ensures View() == old(View()).(currentState := Menu)
    {
      currentState := Menu;
    }

    /** `mousePressed`: the click goes to the handler of the current screen. */
    method MousePressed(mx: real, my: real, now: real, d: Draws) returns (ok: bool)
      requires Valid() && DrawsOk(d)
      modifies this, dragon
      ensures Valid()
      ensures !ok ==> old(currentState) in {Menu, PlayingMath} && View() == old(View())
      ensures old(currentState) != PlayingDragon && old(dragon) != null ==> unchanged(old(dragon))
      ensures old(currentState) == Menu ==>
        && MenuClickEffect(old(View()), View(), ok, mx, my, now, d)
        && (OnDragonButton(mx, my) ==>
              && fresh(dragon) && dragon.y == CanvasHeight / 2.0 && dragon.vy == 0.0
              && dragon.lives == DragonInitialLives)
      ensures old(currentState) == PlayingColor ==>
        ok && ColorClickEffect(old(View()), View(), mx, my, now, d.target, d.display)
      ensures old(currentState) == PlayingMath ==> MathClickEffect(old(View()), View(), ok, mx, my, now, d)
      ensures old(currentState) == PlayingDragon ==>
        && ok && View() == old(View())
        && dragon.vy == JumpForce && dragon.y == old(dragon.y) && dragon.lives == old(dragon.lives)
      ensures old(currentState) == GameOver ==> ok && View() == old(View()).(currentState := Menu)
    {
      ok := true;
      match currentState
      case Menu =>
        ok := HandleMenuClick(mx, my, now, d);
      case PlayingColor =>
        HandleColorGameClick(mx, my, now, d.target, d.display);
      case PlayingMath =>
        ok := HandleMathGameClick(mx, my, now, d);
      case PlayingDragon =>
        HandleDragonheartGameClick();
      case GameOver =>
        HandleGameOverClick();
    }

    /** The obstacle spawn step of `drawDragonheartGame`. */
    method SpawnObstacle(now: real, t: TickDraws)
      requires TickDrawsOk(t)
      modifies this
      ensures obstacles == ObstaclesAfterSpawn(old(obstacles), now, old(lastObstacleTime), t, dragonGameSpeed)
      ensures View() == old(View()).(obstacles := obstacles,
        lastObstacleTime := if SpawnDue(now, old(lastObstacleTime), t.obstacleGap,
                                         MinObstacleInterval, MaxObstacleInterval)
                            then now else old(lastObstacleTime))
    {
      if now - lastObstacleTime > RandomBetween(t.obstacleGap, MinObstacleInterval, MaxObstacleInterval) {
        obstacles := obstacles + [NewObstacle(t.obstacleWidth, t.obstacleHeight, t.obstacleY, dragonGameSpeed)];
        lastObstacleTime := now;
      }
    }

    /** The heart spawn step of `drawDragonheartGame`. */
    method SpawnHeart(now: real, t: TickDraws)
      requires TickDrawsOk(t)
      modifies this
      ensures hearts == HeartsAfterSpawn(old(hearts), now, old(lastHeartTime), t, dragonGameSpeed)
      ensures View() == old(View()).(hearts := hearts,
        lastHeartTime := if SpawnDue(now, old(lastHeartTime), t.heartGap,
                                      MinHeartInterval, MaxHeartInterval)
                         then now else old(lastHeartTime))
    {
      if now - lastHeartTime > RandomBetween(t.heartGap, MinHeartInterval, MaxHeartInterval) {
        hearts := hearts + [NewHeart(t.heartY, dragonGameSpeed)];
        lastHeartTime := now;
      }
    }
  
    /** One pass of the obstacle loop, on obstacle `i`. */
    method UpdateObstacle(i: int)
      requires dragon != null && 0 <= i < |obstacles|
      modifies this, dragon
      ensures dragon == old(dragon) && dragon.y == old(dragon.y) && dragon.vy == old(dragon.vy)
      ensures var f := ObstacleFate(dragon.y, old(obstacles[i]));
        && dragon.lives == old(dragon.lives) - (if f == Touched then 1 else 0)
        && View() == old(View()).(
             obstacles := old(obstacles)[..i]
                          + (if f == Kept then [MoveObstacle(old(obstacles[i]))] else [])
                          + old(obstacles)[i + 1..],
             score := old(score) + (if f == Offscreen then 1 else 0),
             currentState := if f == Touched && dragon.lives <= 0 then GameOver else old(currentState))
    {
      obstacles := obstacles[i := MoveObstacle(obstacles[i])];
      if dragon.Hits(obstacles[i]) {
        var gameOver := dragon.TakeDamage();
        if gameOver {
          currentState := GameOver;
        }
        obstacles := obstacles[..i] + obstacles[i + 1..];
      } else if ObstacleOffscreen(obstacles[i]) {
        obstacles := obstacles[..i] + obstacles[i + 1..];
        score := score + 1;
      }
    }

    /** One pass of the heart loop, on heart `i`. */
    method UpdateHeart(i: int)
      requires dragon != null && 0 <= i < |hearts|
      modifies this, dragon
      ensures dragon == old(dragon) && dragon.y == old(dragon.y) && dragon.vy == old(dragon.vy)
      ensures var f := HeartFate(dragon.y, old(hearts[i]));
        && dragon.lives == (if f == Touched then Healed(old(dragon.lives), 1) else old(dragon.lives))
        && View() == old(View()).(
             hearts := old(hearts)[..i]
                       + (if f == Kept then [MoveHeart(old(hearts[i]))] else [])
                       + old(hearts)[i + 1..])
    {
      hearts := hearts[i := MoveHeart(hearts[i])];
      if dragon.Collects(hearts[i]) {
        dragon.Heal();
        hearts := hearts[..i] + hearts[i + 1..];
      } else if HeartOffscreen(hearts[i]) {
        hearts := hearts[..i] + hearts[i + 1..];
      }
    }

    /** The obstacle loop of `drawDragonheartGame`: from the last obstacle to
        the first, move it, then remove it on a hit (one life less) or, failing
        that, when it is off-screen (one point more). */
    method ObstaclePass()
      requires dragon != null
      modifies this, dragon
      ensures dragon == old(dragon)
      ensures dragon.y == old(dragon.y) && dragon.vy == old(dragon.vy)
      ensures dragon.lives == old(dragon.lives) - CountObstacles(dragon.y, old(obstacles), Touched)
      ensures View() == old(View()).(
        obstacles := ObstacleSurvivors(dragon.y, old(obstacles)),
        score := old(score) + CountObstacles(dragon.y, old(obstacles), Offscreen),
        currentState := if CountObstacles(dragon.y, old(obstacles), Touched) > 0 && dragon.lives <= 0
                        then GameOver else old(currentState))
    {
      ghost var os := obstacles;
      ghost var v0 := View();
      ghost var lives0 := dragon.lives;
      ghost var dy := dragon.y;
      var i := |obstacles| - 1;
      while i >= 0
        invariant -1 <= i < |os|
        invariant dragon == v0.dragon && dragon.y == dy && dragon.vy == old(dragon.vy)
        invariant obstacles == os[..i + 1] + ObstacleSurvivors(dy, os[i + 1..])
        invariant dragon.lives == lives0 - CountObstacles(dy, os[i + 1..], Touched)
        invariant View() == v0.(
          obstacles := obstacles,
          score := v0.score + CountObstacles(dy, os[i + 1..], Offscreen),
          currentState := if CountObstacles(dy, os[i + 1..], Touched) > 0 && dragon.lives <= 0
                          then GameOver else v0.currentState)
        decreases i
      {
        ObstacleStep(dy, os, i);
        SpliceStep(os[..i + 1], ObstacleSurvivors(dy, os[i + 1..]), i,
                   if ObstacleFate(dy, os[i]) == Kept then [MoveObstacle(os[i])] else []);
        UpdateObstacle(i);
        i := i - 1;
      }
      assert os[0..] == os && os[..0] + ObstacleSurvivors(dy, os) == ObstacleSurvivors(dy, os);
    }

    /** The heart loop of `drawDragonheartGame`: from the last heart to the
        first, move it, then remove it when collected (the dragon heals) or,
        failing that, when it is off-screen. The score is not touched. */
    method HeartPass()
      requires dragon != null
      modifies this, dragon
      ensures dragon == old(dragon)
      ensures dragon.y == old(dragon.y) && dragon.vy == old(dragon.vy)
      ensures dragon.lives == Healed(old(dragon.lives), CountHearts(dragon.y, old(hearts), Touched))
      ensures View() == old(View()).(hearts := HeartSurvivors(dragon.y, old(hearts)))
    {
      ghost var hs := hearts;
      ghost var v0 := View();
      ghost var lives0 := dragon.lives;
      ghost var dy := dragon.y;
      var i := |hearts| - 1;
      while i >= 0
        invariant -1 <= i < |hs|
        invariant dragon == v0.dragon && dragon.y == dy && dragon.vy == old(dragon.vy)
        invariant hearts == hs[..i + 1] + HeartSurvivors(dy, hs[i + 1..])
        invariant dragon.lives == Healed(lives0, CountHearts(dy, hs[i + 1..], Touched))
        invariant View() == v0.(hearts := hearts)
        decreases i
      {
        HeartStep(dy, hs, i);
        SpliceStep(hs[..i + 1], HeartSurvivors(dy, hs[i + 1..]), i,
                   if HeartFate(dy, hs[i]) == Kept then [MoveHeart(hs[i])] else []);
        UpdateHeart(i);
        i := i - 1;
      }
      assert hs[0..] == hs && hs[..0] + HeartSurvivors(dy, hs) == HeartSurvivors(dy, hs);
    }
  
    /** The obstacle half of a Dragonheart tick: an obstacle may spawn, then the
        obstacle pass runs. */
    method ObstacleTick(now: real, t: TickDraws)
      requires dragon != null && TickDrawsOk(t)
      requires forall o :: o in obstacles ==> o.speed == dragonGameSpeed
      modifies this, dragon
      ensures dragon == old(dragon)
      ensures dragon.y == old(dragon.y) && dragon.vy == old(dragon.vy)
      ensures var os := ObstaclesAfterSpawn(old(obstacles), now, old(lastObstacleTime), t, old(dragonGameSpeed));
              var hits := CountObstacles(dragon.y, os, Touched);
        && dragon.lives == old(dragon.lives) - hits
        && obstacles == ObstacleSurvivors(dragon.y, os)
        && score == old(score) + CountObstacles(dragon.y, os, Offscreen)
        && currentState == if hits > 0 && dragon.lives <= 0 then GameOver else old(currentState)
      ensures forall o :: o in obstacles ==> o.speed == dragonGameSpeed
      ensures lastObstacleTime == if SpawnDue(now, old(lastObstacleTime), t.obstacleGap,
                                              MinObstacleInterval, MaxObstacleInterval)
                                  then now else old(lastObstacleTime)
      ensures View() == old(View()).(obstacles := obstacles, score := score,
        currentState := currentState, lastObstacleTime := lastObstacleTime)
    {
      SpawnObstacle(now, t);
      ghost var os := obstacles;
      ObstaclePass();
      SurvivorsKeepSpeed(dragon.y, os, [], dragonGameSpeed);
    }

    /** The heart half of a Dragonheart tick: a heart may spawn, then the heart
        pass runs. */
    method HeartTick(now: real, t: TickDraws)
      requires dragon != null && TickDrawsOk(t)
      requires forall h :: h in hearts ==> h.speed == dragonGameSpeed
      modifies this, dragon
      ensures dragon == old(dragon)
      ensures dragon.y == old(dragon.y) && dragon.vy == old(dragon.vy)
      ensures var hs := HeartsAfterSpawn(old(hearts), now, old(lastHeartTime), t, old(dragonGameSpeed));
        && dragon.lives == Healed(old(dragon.lives), CountHearts(dragon.y, hs, Touched))
        && hearts == HeartSurvivors(dragon.y, hs)
      ensures forall h :: h in hearts ==> h.speed == dragonGameSpeed
      ensures lastHeartTime == if SpawnDue(now, old(lastHeartTime), t.heartGap,
                                           MinHeartInterval, MaxHeartInterval)
                               then now else old(lastHeartTime)
      ensures View() == old(View()).(hearts := hearts, lastHeartTime := lastHeartTime)
    {
      SpawnHeart(now, t);
      ghost var hs := hearts;
      HeartPass();
      SurvivorsKeepSpeed(dragon.y, [], hs, dragonGameSpeed);
    }

    /** The update part of `drawDragonheartGame`: the dragon moves, an obstacle
        may spawn, the obstacle pass runs, a heart may spawn, the heart pass
        runs. Only a hit can end the game. */
    method DrawDragonheartGame(now: real, t: TickDraws)
      requires Valid() && currentState == PlayingDragon && TickDrawsOk(t)
      modifies this, dragon
      ensures Valid()
      ensures dragon == old(dragon)
      ensures dragon.vy == old(dragon.vy) + Gravity
      ensures dragon.y == Constrain(old(dragon.y) + dragon.vy, 0.0, DragonFloor)
      ensures var os := ObstaclesAfterSpawn(old(obstacles), now, old(lastObstacleTime), t, old(dragonGameSpeed));
              var hs := HeartsAfterSpawn(old(hearts), now, old(lastHeartTime), t, old(dragonGameSpeed));
              var hits := CountObstacles(dragon.y, os, Touched);
              var afterHits := old(dragon.lives) - hits;
        && dragon.lives == Healed(afterHits, CountHearts(dragon.y, hs, Touched))
        && obstacles == ObstacleSurvivors(dragon.y, os)
        && hearts == HeartSurvivors(dragon.y, hs)
        && score == old(score) + CountObstacles(dragon.y, os, Offscreen)
        && currentState == if hits > 0 && afterHits <= 0 then GameOver else PlayingDragon
      ensures lastObstacleTime == if SpawnDue(now, old(lastObstacleTime), t.obstacleGap,
                                              MinObstacleInterval, MaxObstacleInterval)
                                  then now else old(lastObstacleTime)
      ensures lastHeartTime == if SpawnDue(now, old(lastHeartTime), t.heartGap,
                                           MinHeartInterval, MaxHeartInterval)
                               then now else old(lastHeartTime)
      ensures View() == old(View()).(obstacles := obstacles, hearts := hearts, score := score,
        currentState := currentState, lastObstacleTime := lastObstacleTime, lastHeartTime := lastHeartTime)
    {
      dragon.Update();
      ObstacleTick(now, t);
      HeartTick(now, t);
    }

    /** The state changes of `draw`: the timer runs in the colour and maths
        games only, the Dragonheart game runs its tick, the menu and the
        game-over screen only draw. */
    method Draw(now: real, t: TickDraws)
      requires Valid() && TickDrawsOk(t)
      modifies this, dragon
      ensures Valid()
      ensures old(currentState) in {Menu, GameOver} ==> View() == old(View())
      ensures old(currentState) != PlayingDragon && old(dragon) != null ==> unchanged(old(dragon))
      ensures old(currentState) in {PlayingColor, PlayingMath} ==>
        View() == if Expired(old(timeLimit), old(roundStartTime), now)
                  then old(View()).(currentState := GameOver) else old(View())
      ensures old(currentState) == PlayingDragon ==>
        && dragon == old(dragon) && dragon != null
        && dragon.vy == old(dragon.vy) + Gravity
        && dragon.y == Constrain(old(dragon.y) + dragon.vy, 0.0, DragonFloor)
        && var os := ObstaclesAfterSpawn(old(obstacles), now, old(lastObstacleTime), t, old(dragonGameSpeed));
           var hs := HeartsAfterSpawn(old(hearts), now, old(lastHeartTime), t, old(dragonGameSpeed));
           var hits := CountObstacles(dragon.y, os, Touched);
           var afterHits := old(dragon.lives) - hits;
           && dragon.lives == Healed(afterHits, CountHearts(dragon.y, hs, Touched))
           && obstacles == ObstacleSurvivors(dragon.y, os)
           && hearts == HeartSurvivors(dragon.y, hs)
           && score == old(score) + CountObstacles(dragon.y, os, Offscreen)
           && currentState == (if hits > 0 && afterHits <= 0 then GameOver else PlayingDragon)
           && lastObstacleTime == (if SpawnDue(now, old(lastObstacleTime), t.obstacleGap,
                                                MinObstacleInterval, MaxObstacleInterval)
                                    then now else old(lastObstacleTime))
           && lastHeartTime == (if SpawnDue(now, old(lastHeartTime), t.heartGap,
                                             MinHeartInterval, MaxHeartInterval)
                                 then now else old(lastHeartTime))
           && View() == old(View()).(obstacles := obstacles, hearts := hearts, score := score,
                currentState := currentState, lastObstacleTime := lastObstacleTime,
                lastHeartTime := lastHeartTime)
    {
      match currentState
      case Menu =>
      case PlayingColor =>
        UpdateTimer(now);
      case PlayingMath =>
        UpdateTimer(now);
      case PlayingDragon =>
        DrawDragonheartGame(now, t);
      case GameOver =>
    }
  }
}
