# Colour, Maths and Dragonheart mini-games: a Dafny model

This project is a Dafny model of the game logic in the `sketch.js` p5.js sketch
("Color & Math & Dragon Frenzy!"). The sketch is a menu with three games:

- a colour-word game: click the swatch that the word names;
- a mental-maths quiz with four answer buttons;
- Dragonheart, a side-scroller: dodge obstacles and collect hearts.

The model leaves out all drawing. What remains is one state machine over the
sketch's globals. `Sketch.Game` is a class holding those globals:
`currentState`, `score`, `timeLimit`, `roundStartTime`, the colour target, the
maths round, `dragon`, `obstacles` and `hearts`. Its methods are the click
handlers, the per-frame update and the helpers they call. Each p5 input is a
parameter:

- the clock `millis()` is `now: real`;
- the pointer `mouseX`/`mouseY` is `mx, my: real`;
- each `random()` draw is a real in [0, 1) (`Randomness.IsUnit`).

The module `Randomness` turns a draw into `random(lo, hi)` and
`floor(random(lo, hi))` as p5 computes them.

Modules:

- `Randomness`: random draws.
- `Geometry`: the 800×600 canvas, `constrain`, `isButtonClicked`, `collideRectRect`.
- `Timer`: the time-limit formula and the expiry test of `updateTimer`.
- `ColorGame`: the palette, `colorMatch`, the swatch layout and scan.
- `MathGame`: problem generation, the choice set, the Fisher–Yates shuffle, the answer-button scan.
- `Dragonheart`: the `Dragon` class, obstacles and hearts, and the specification of the per-tick passes.
- `Sketch`: the `Game` class with `mousePressed`, `draw` and every handler.
- `Opt`: the `Option` type.

How the model differs from the code:

- `Dragon.takeDamage` sets the global `currentState` itself. `Dragonheart.Dragon.TakeDamage` returns a flag instead, and the caller sets `GameOver`.
- Obstacles and hearts are values in the `obstacles`/`hearts` sequences. Each pass replaces element `i` by its moved copy, then splices it out, as the source does in place. The source never shares these objects, so there is no aliasing to model.
- `colorMatch` compares the red, green and blue channels of two p5 colours. The model compares the HSB triples of the palette entries. `ColorMatchIsIndexEquality` shows that on the palette this is the same as comparing palette indices.
- `Dragon.collects` compares a square-rooted distance with the sum of the radii. The model compares squares, which is equivalent because both sides are non-negative.
- The random draws a click needs come together in `Sketch.Draws`. The variable-length run consumed by the choice loop is a finite sequence. `MathGame.ChoicesRun` follows the loop over that sequence draw by draw. When the sequence runs out before four values are collected, and only then, the click is refused: `ok` is false and no global changes. `MathGame.ChoicesComplete` and `Sketch.RoundDrawable` name the draws that are enough.
- The model draws a new maths round (`MathGame.GenerateRound`) before it changes the score, the time limit or the round clock, and assigns the round afterwards (`Game.SetMathRound`). `Game.HandleMenuClick` sets the state before the reset, as the source does, and puts the menu back when the click is refused. That way a refused click changes nothing. The source changes some globals first. `resetGame` sets `score`, `timeLimit` and `roundStartTime` (sketch.js:114-116) before `generateNewMathProblem` runs. In a correct maths answer, `score++` (sketch.js:426) comes before `nextRoundMathGame`, whose own draw (sketch.js:437) comes before its `timeLimit` assignment (sketch.js:438). `generateNewMathProblem` reads none of these globals, so an accepted click ends in the same state.
- Several globals are undefined until a game starts: the colour target, the maths fields, `dragon`, `dragonGameSpeed`, `roundStartTime`. The constructor gives them placeholders (0, `Plus`, `null` for `dragon`), which nothing reads before they are set.

## Model

| member | source | states |
|---|---|---|
| Randomness.Scale | sketch.js:223 | `random() * n`, for a positive `n`, lies in [0, n) |
| Randomness.RandomBetween | sketch.js:511-513 | `random(lo, hi)` lies in [lo, hi) |
| Randomness.FloorRandom | sketch.js:313-314 | `floor(random(lo, hi))` is an integer in [lo, hi) |
| Geometry.Constrain | sketch.js:465 | `constrain` lands in [lo, hi], returns the value unchanged when it is already in range, and returns the nearer bound otherwise |
| Geometry.IsButtonClicked | sketch.js:204-212 | a centre-mode button is hit exactly when the pointer is strictly inside the corner-mode rectangle at (x - w/2, y - h/2) |
| Geometry.CollideRectRect | sketch.js:560-570 | the closed-edge overlap test of two corner-mode rectangles, edge by edge as the source writes it |
| Geometry.CollideIffCommonPoint | sketch.js:560-570 | for rectangles of non-negative size, `collideRectRect` holds exactly when some point lies in both closed rectangles |
| Geometry.CollideSymmetric | sketch.js:560-570 | `collideRectRect` does not depend on the order of its two rectangles |
| Timer.NextTimeLimit | sketch.js:231-235 | the next time limit lies in [700, 3000], is at least 3000 - 150·score, and equals either that value or the 700 floor |
| Timer.NextTimeLimitAntitone | sketch.js:233 | a higher score never gives a longer time limit |
| Timer.NextTimeLimitFloor | sketch.js:438 | the time limit sits on the 700 ms floor exactly when the score is at least 16 |
| Timer.Expired | sketch.js:135-139 | a round has expired when the time limit minus the elapsed time is at most 0 |
| Timer.ExpiredIffDeadline | sketch.js:135-141 | a round has expired exactly when `now >= roundStartTime + timeLimit`, and it stays expired as time goes on |
| ColorGame.ColorMatchIsIndexEquality | sketch.js:306-308 | two palette colours match exactly when their indices are equal, so exactly one swatch matches the target |
| ColorGame.ColorMatch | sketch.js:306-308 | two colours match when all three channels agree |
| ColorGame.PickColorIndex | sketch.js:222-229 | the drawn target or display index is a valid palette index |
| ColorGame.SwatchesDisjoint | sketch.js:276-292 | no point lies in two swatches |
| ColorGame.ClickedSwatch | sketch.js:276-292 | the scan reports swatch i exactly when the pointer is strictly inside swatch i, and reports none when it is inside no swatch |
| MathGame.NewProblem | sketch.js:312-331 | both operands lie in [1, 12]; the answer equals num1 op num2 and is non-negative; the operands are the two drawn numbers, swapped only for subtraction, where num1 >= num2; the operation is the drawn one |
| MathGame.NineMinusThree | sketch.js:321-327 | draws that give 9, 3 and '-' produce the problem 9 - 3 with answer 6 |
| MathGame.DistinctCounts | sketch.js:338 | a sequence without repetitions holds each value at most once |
| MathGame.DistinctPermutation | sketch.js:361-362 | reordering a sequence without repetitions leaves it without repetitions |
| MathGame.SetAdd | sketch.js:341 | `Set.add` keeps the existing elements and their order, adds the value at the end if it is new, and keeps the elements pairwise distinct |
| MathGame.ChoicesPass | sketch.js:345-357 | one pass of the loop consumes one or two draws, adds at most one value, keeps what the set held in front, and keeps the answer first with only distinct decoys after it |
| MathGame.ChoicesRun | sketch.js:344-358 | pass by pass, the loop keeps the answer first, adds only decoys and repeats no value; it consumes every draw unless it has collected four values |
| MathGame.ChoicesRunExtends | sketch.js:344-358 | the loop only adds: the set it started from stays in front of the set it ends with, in order |
| MathGame.AddDecoy | sketch.js:341-355 | adding a decoy to an incomplete set keeps it a valid candidate set and leaves its earlier entries in place |
| MathGame.GenerateChoices | sketch.js:336-358 | the loop returns exactly the set and draw count of `ChoicesRun` on its draws; the set starts with the answer, is pairwise distinct, holds only decoys besides the answer, and has 4 entries exactly when `ChoicesComplete` holds |
| MathGame.Swap | sketch.js:368 | the destructuring swap keeps the length |
| MathGame.SwapExchanges | sketch.js:368 | the destructuring swap exchanges two positions, keeps all others, and keeps the multiset |
| MathGame.SwapPartners | sketch.js:366-367 | the step at index i - k picks its partner with draw k, and the partner lies in [0, i - k] |
| MathGame.SwapPartnersAt | sketch.js:367 | partner k is exactly `floor(random() * (i - k + 1))` on draw k |
| MathGame.SwapFromPermutes | sketch.js:366-369 | the swaps from index i down to 1 only reorder: the multiset is kept |
| MathGame.ShuffleStep | sketch.js:366-369 | after one iteration's swap, the remaining iterations still produce the full shuffle |
| MathGame.Shuffled | sketch.js:365-371 | the full shuffle keeps the length and the multiset |
| MathGame.ShuffledDistinct | sketch.js:361-362 | shuffling keeps a sequence free of repetitions and keeps exactly the same values |
| MathGame.ShuffleArray | sketch.js:365-371 | the in-place loop leaves the array equal to `Shuffled` of its old contents, hence a permutation of them |
| MathGame.ShuffledRoundOk | sketch.js:360-362 | a shuffled complete choice set for a valid problem has 4 pairwise-distinct non-negative values and contains the answer |
| MathGame.GenerateRound | sketch.js:312-363 | `None` exactly when the choice draws are not enough (`ChoicesComplete` fails); otherwise the round is exactly `DrawnRound` of the draws: the problem `NewProblem` gives, with choices `Shuffled` of the `ChoicesRun` set; they are 4 pairwise-distinct non-negative values that contain the answer |
| MathGame.ButtonsDisjoint | sketch.js:412-423 | no point lies in two answer buttons |
| MathGame.ClickedButton | sketch.js:419-433 | the scan reports button i exactly when the pointer is strictly inside button i, and reports none when it is inside no button |
| Dragonheart.Dragon.constructor | sketch.js:446-454 | a new dragon sits at y = 300 with no velocity and 3 lives |
| Dragonheart.Dragon.Jump | sketch.js:456-458 | the velocity becomes -10, whatever it was; position and lives stay |
| Dragonheart.Dragon.Update | sketch.js:460-466 | gravity is added to the velocity, the position moves by it and is clamped, so 0 <= y <= 540 afterwards; the velocity is not reset at the clamp |
| Dragonheart.Dragon.TakeDamage | sketch.js:493-498 | lives drop by exactly 1, and the game must end exactly when lives are now <= 0 |
| Dragonheart.Dragon.Heal | sketch.js:500-504 | lives rise by one below the maximum and stay otherwise, so they never exceed 3 when they did not before |
| Dragonheart.Dragon.Hits | sketch.js:477-484 | the dragon at its current height hits the obstacle (`HitsAt`) |
| Dragonheart.Dragon.Collects | sketch.js:486-491 | the dragon at its current height collects the heart (`CollectsAt`) |
| Dragonheart.NewObstacle | sketch.js:509-515 | a new obstacle starts at x = 800 with the game speed; its width is in [40, 80), its height in [50, 250), and it lies inside the canvas vertically |
| Dragonheart.NewHeart | sketch.js:533-538 | a new heart starts at x = 800 with size 30 and the game speed, and its y is in [50, 550) |
| Dragonheart.MoveObstacle | sketch.js:517-519 | `update` moves the obstacle left by its speed and changes nothing else |
| Dragonheart.MoveHeart | sketch.js:540-542 | `update` moves the heart left by its speed and changes nothing else |
| Dragonheart.HitsAt | sketch.js:477-484 | `collideRectRect` of the dragon's bounding square, centred on the dragon, with the obstacle's rectangle |
| Dragonheart.HitsIffCommonPoint | sketch.js:477-484 | an obstacle of non-negative size is hit exactly when some point lies both in the dragon's bounding square and in the obstacle |
| Dragonheart.CollectsAt | sketch.js:486-491 | the squared distance of the two circle centres is below the squared sum of the radii |
| Dragonheart.CollectsIffCloserThanReach | sketch.js:486-491 | for the distance d of the two centres, the squared test holds exactly when d is below the sum of the radii, as `dist(...) < r1 + r2` states |
| Dragonheart.ObstacleOffscreen | sketch.js:526-528 | an obstacle is off-screen when its x is less than minus its width |
| Dragonheart.ObstacleOffscreenStays | sketch.js:526-528 | an obstacle is off-screen exactly when its right edge has passed the left border, and moving it left keeps it off-screen |
| Dragonheart.HeartOffscreen | sketch.js:554-556 | a heart is off-screen when its x is less than minus its size |
| Dragonheart.HeartOffscreenStays | sketch.js:554-556 | a heart is off-screen exactly when its right edge has passed the left border, and moving it left keeps it off-screen |
| Dragonheart.ObstacleSurvivors | sketch.js:602-614 | no obstacle kept by the pass is hit or off-screen, and the pass never keeps more obstacles than it received |
| Dragonheart.HeartSurvivors | sketch.js:622-632 | no heart kept by the pass is collected or off-screen, and the pass never keeps more hearts than it received |
| Dragonheart.ObstaclePartition | sketch.js:606-613 | every obstacle is kept, removed by a hit, or removed off-screen, and exactly one of the three |
| Dragonheart.HeartPartition | sketch.js:626-631 | every heart is kept, collected, or removed off-screen, and exactly one of the three |
| Dragonheart.ObstacleSurvivorsAppend | sketch.js:602-614 | the obstacle pass distributes over concatenation, so survivors keep their relative order, and hits and passes add up |
| Dragonheart.HeartSurvivorsAppend | sketch.js:622-632 | the heart pass distributes over concatenation, so surviving hearts keep their relative order |
| Dragonheart.SurvivorsKeepSpeed | sketch.js:514 | obstacles and hearts that share one speed still share it after a pass |
| Dragonheart.Healed | sketch.js:500-504 | after k heals the lives are min(lives + k, 3) when they started at most 3, and never fall |
| Dragonheart.OverlappingObstacleIsHit | sketch.js:606-609 | an obstacle that overlaps the dragon is removed as a hit and does not count as passed |
| Sketch.MenuButtonsDisjoint | sketch.js:163-179 | a click is on at most one of the three menu buttons |
| Sketch.SpawnDue | sketch.js:597 | the time since the last spawn exceeds `random(lo, hi)` |
| Sketch.SpawnDueWindow | sketch.js:597 | whatever the draw, a spawn is due once more than the upper bound has passed, and never while at most the lower bound has passed |
| Sketch.Game.constructor | sketch.js:31-48 | the sketch starts on the menu with score 0 and the 3000 ms limit |
| Sketch.Game.UpdateTimer | sketch.js:135-141 | the state becomes `GameOver` exactly when the round has expired; nothing else changes |
| Sketch.Game.SetNewTargetColor | sketch.js:222-229 | the target and display indices are drawn independently, each by `PickColorIndex` from its own draw; nothing else changes |
| Sketch.Game.NextRoundColorGame | sketch.js:231-235 | new target, time limit `NextTimeLimit(score)`, round restarts now |
| Sketch.Game.SetMathRound | sketch.js:312-363 | the maths globals hold the drawn round; nothing else changes |
| Sketch.Game.NextRoundMathGame | sketch.js:436-440 | new round, time limit `NextTimeLimit(score)`, round restarts now |
| Sketch.Game.ResetDragonheartGame | sketch.js:574-582 | fresh dragon, no obstacles or hearts, score 0, speed 4, both spawn clocks at now |
| Sketch.Game.ResetGame | sketch.js:113-133 | refused exactly when a maths round is due and its draws are not enough, and then nothing changes; otherwise score 0, time limit 3000, round start now, plus the current game's own reset (for maths: the problem and the shuffled choices are exactly `RoundOf(d)`); the state stays the same and the invariants hold |
| Sketch.Game.HandleMenuClick | sketch.js:163-179 | `MenuClickEffect`: a click on one menu button enters that game with score 0, time limit 3000 and that game's fresh state (the drawn colours, the round `RoundOf(d)`, or a new dragon with empty lists); it is refused exactly when it is on the maths button and the draws are not enough, and then nothing changes; a click elsewhere changes nothing |
| Sketch.Game.HandleColorGameClick | sketch.js:294-304 | swatch i scores 1 point and starts a new round iff i is the target index; any other swatch gives `GameOver`; a click on no swatch changes nothing |
| Sketch.Game.ScoreMathAnswer | sketch.js:425-440 | one point more, the next round exactly `RoundOf(d)` (problem and shuffled choices), time limit `NextTimeLimit(score + 1)`, round restarts now; refused exactly when the draws are not enough, and then nothing changes |
| Sketch.Game.HandleMathGameClick | sketch.js:412-434 | `MathClickEffect`: the button holding the answer scores 1 point and starts the round `RoundOf(d)`, and is refused exactly when the draws are not enough; any other button gives `GameOver`; a click on no button changes nothing |
| Sketch.Game.HandleDragonheartGameClick | sketch.js:643-645 | a click makes the dragon jump |
| Sketch.Game.HandleGameOverClick | sketch.js:664-667 | any click goes back to the menu; nothing else changes |
| Sketch.Game.MousePressed | sketch.js:91-109 | each state's click has its handler's full effect: `MenuClickEffect` on the menu, `ColorClickEffect` in the colour game, `MathClickEffect` in the maths game, only a jump in Dragonheart, and the game-over screen returns to the menu; a click is refused only on the menu or in the maths game, and then nothing changes; the dragon is untouched outside Dragonheart; the invariants are kept |
| Sketch.Game.SpawnObstacle | sketch.js:597-600 | when more time than the drawn interval has passed, one new obstacle is appended and the spawn clock is set to now; otherwise nothing changes |
| Sketch.Game.SpawnHeart | sketch.js:617-620 | the same for hearts, with their longer interval |
| Sketch.Game.UpdateObstacle | sketch.js:603-613 | obstacle i moves; a hit costs one life and may end the game, an off-screen exit scores one point, and either one removes the obstacle |
| Sketch.Game.UpdateHeart | sketch.js:623-631 | heart i moves; a pickup heals, and a pickup or an off-screen exit removes the heart |
| Sketch.Game.ObstaclePass | sketch.js:602-614 | after the reverse loop the obstacles are the survivors, score rises by the number passed, lives fall by the number hit, and the state is `GameOver` iff some hit left lives <= 0 |
| Sketch.Game.HeartPass | sketch.js:622-632 | after the reverse loop the hearts are the survivors, lives are healed once per heart collected (up to the cap), and score and state are untouched |
| Sketch.Game.ObstacleTick | sketch.js:597-614 | after the spawn step and the obstacle pass, the obstacles are the survivors of the spawned list, lives fall by the hits, score rises by the passes, the spawn clock is now exactly when a spawn was due, and all obstacles keep the game speed |
| Sketch.Game.HeartTick | sketch.js:617-632 | after the spawn step and the heart pass, the hearts are the survivors of the spawned list, lives are healed once per heart collected, the spawn clock is now exactly when a spawn was due, and all hearts keep the game speed |
| Sketch.Game.DrawDragonheartGame | sketch.js:592-632 | one tick: the dragon moves, spawns happen and set their clocks, both passes run; only a hit can end the game, and the invariants are kept |
| Sketch.Game.Draw | sketch.js:59-88 | the timer can end only the colour and maths games; a Dragonheart frame has the full effect of `drawDragonheartGame` (the dragon's fall and healing, the surviving obstacles and hearts, lives, score, state and both spawn clocks); the menu and game-over screens change nothing; the dragon is untouched outside Dragonheart |

## Left out

- Rendering: every drawing call, `drawMenuScreen`, `drawButton`, the `show` methods, text, colours and shadows. They change no game state.
- The p5 runtime: `millis`, `random`, `mouseX`/`mouseY`, `createCanvas`, `colorMode`. They are parameters or constants.
- HSB-to-RGB conversion in `colorMatch`: colours are compared as HSB triples. The four palette colours give four different RGB colours, so the outcome is the same.
- `Dragon.collects` with `dist`: the model uses the squared-distance comparison, on reals.
- Floating point: positions, velocities, times and draws are exact reals. Rounding in JavaScript doubles (for example `0.6` gravity added repeatedly) is not modelled.
- Sketch.Game.MousePressed: a click whose supplied choice draws run out before the maths choice loop finishes is refused with `ok == false`. `MathGame.GenerateChoices`, `MathGame.GenerateRound`, `Sketch.Game.ResetGame`, `Sketch.Game.HandleMenuClick`, `Sketch.Game.ScoreMathAnswer` and `Sketch.Game.HandleMathGameClick` refuse in the same case. The source would keep drawing until it finished, which it does with probability 1.
- Clock readings within one event: the source calls `millis()` several times in one reset or one frame, for example sketch.js:116 and 580-581 in a Dragonheart reset, and 597/599 and 617/619 in a frame. So a stored round or spawn time can be slightly later than the reading that triggered it. The model uses a single reading `now` for all of an event's `millis()` calls.
- Spawn timing: `draw` re-samples the spawn threshold every tick. The model takes each tick's draw as a parameter and does not describe the resulting distribution of gaps.
- Dragonheart lives: the model does not claim lives stay >= 0. Several hits in one tick can push them below 0, because the loop keeps running after `GameOver`. Hearts collected later in the same tick can heal a dragon that is already in `GameOver`.
- `timeLeft` (sketch.js:32) and the `gameOver` remarks in `resetGame`: the source never uses them.
