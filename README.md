# Eye Drop Invaders — a verified model of the game logic

Eye Drop Invaders is a browser game for learning which eye-drop treats which
eye condition. Enemies show one of five conditions (dry eye, allergic
conjunctivitis, sore eye, red eyes, glaucoma) and fall down the play area.
The player moves along the bottom and fires shots that carry one of five
treatments (lubricant, antihistaminic, decongestant, cs, ts). A hit with the
matching treatment earns 100 points and a correct answer. Any other hit costs
20 points, never going below zero, and counts as a wrong answer. A round lasts
three minutes. At the end the final score and the accuracy pick a badge:
Novice, Hero or Legend.

This project models the game logic of `script.js`:
- the state variables;
- the condition-to-treatment table;
- the closed-rectangle overlap test;
- the per-frame motion and collision passes;
- scoring, the countdown, the end of the round and its badge;
- start and reset;
- the guarded player commands.

It proves properties of that model. The modules follow the script's parts:

- `Entities` (entities.dfy) holds:
  - the treatments, the conditions and the difficulty levels;
  - the enemy table with its `correctShot` column;
  - the shot and enemy records;
  - `isColliding` on rectangles.
- `Sequences` (sequences.dfy) holds `splice(j, 1)`, which the motion passes and the collision pass both use, and the "kept in original order" relation that states the collision pass's order guarantee.
- `Scoring` (scoring.dfy) holds the effect of one hit on the score and the counters, the accuracy, and the badge.
- `Collisions` (collisions.dfy) holds `Resolve`, the reference outcome of the collision pass. It is defined shot by shot, from the last shot to the first, and comes with lemmas:
  - exactly-once consumption;
  - no overlap among the survivors;
  - order preservation;
  - highest-index choice.
- `Field` (field.dfy) holds spawning positions, the per-frame motion, eviction at the field's edges, and player clamping.
- `Countdown` (countdown.dfy) holds the `MM:SS` split of the timer, with JavaScript's truncating `%`, and the timer's text.
- `Game` (game.dfy) holds the class `GameState`. Its fields are the script's state variables and its methods are the handlers. `moveShots`, `moveEnemies` and `checkCollisions` keep their reverse-index loops with in-place splicing. Each is proved to leave exactly the state the reference functions in `Field` and `Collisions` describe.

Inputs the browser provides become parameters:
- `offsetWidth`, `offsetHeight`, `offsetLeft` and `offsetTop` of the play area, the player and a new enemy;
- the draws of `Math.random()`.

Handlers that the script ends by drawing the end screen return what that screen shows (`Option<RoundResult>`). The game state always satisfies `GameState.Valid()`:
- the score is non-negative;
- the countdown stays within 0..180 and is positive while a round runs;
- every live enemy carries the treatment the table gives its condition.

The lifecycle follows the code. There is only the flag `isGameOver`, with no separate idle, running and ended phases. After the play-again button the flag is `false` (script.js:713), so shooting and moving are accepted on the start screen. Starting a round has no guard on the state it is called in. A shot-type button click (script.js:100-106) selects its treatment even when the round is over; only the number keys (script.js:558-566) are guarded.

## Model

| member | source | states |
|---|---|---|
| Entities.ShotTypeNamesDistinct | script.js:78-84 | two shot types have the same identifier exactly when they are the same type, so the script's string comparison of treatments is the model's comparison of variants |
| Entities.EnemyKindAt | script.js:70-76 | the row picked by index `i` is the condition whose table row is `i` |
| Entities.RowOf | script.js:70-76 | every condition sits in one of the table's five rows |
| Entities.EnemyTableRowsRoundTrip | script.js:70-76 | reading back the row of a condition gives that condition: the table lists every condition exactly once |
| Entities.TreatedBy | script.js:70-76 | every treatment is the `correctShot` of some condition |
| Entities.CorrectShot | script.js:70-76 | a condition's treatment is the `correctShot` entry of that condition's row of the table |
| Entities.CorrectShotOneToOne | script.js:70-76 | a treatment is correct for a condition exactly when the condition is the one that treatment cures; the table's column is a bijection |
| Entities.IsColliding | script.js:453-458 | for well-formed rectangles, the test holds exactly when their horizontal extents intersect and their vertical extents intersect |
| Entities.CollidingIffCommonPoint | script.js:448-459 | for well-formed rectangles, the overlap test holds exactly when the two closed rectangles share a point |
| Entities.CollidingSymmetric | script.js:453-458 | the overlap test does not depend on the order of its arguments |
| Entities.TouchingEdgesCollide | script.js:453-458 | rectangles that touch along any edge, side against side or bottom against top in either order, count as colliding |
| Entities.CollidingTranslationInvariant | script.js:451-458 | shifting both rectangles by the same offset does not change the result, so viewport and play-area coordinates give the same answer |
| Entities.ShotRect | script.js:303-304 | a shot's rectangle is well formed and exactly 8 wide and 15 high |
| Entities.Hits | script.js:427 | a shot hits an enemy exactly when the shot's 8 by 15 box and the enemy's measured box overlap or touch, stated on their positions |
| Scoring.Scored | script.js:461-474 | a matching hit adds exactly 100 and one correct answer; any other hit adds one wrong answer and takes `min(20, score)` off a non-negative score; the score is never negative afterwards and every hit is one more answer |
| Scoring.Accuracy | script.js:647-648 | accuracy is between 0 and 100, is 0 with no answers and 100 when every answer was correct |
| Scoring.AccuracyThreshold | script.js:647-661 | accuracy reaches a positive percentage exactly when there is at least one answer and `100 * correct >= pct * (correct + wrong)` |
| Scoring.BadgeFor | script.js:646-664 | Legend exactly when the score is at least 5000 and the accuracy at least 80%; Hero exactly when not Legend, the score is at least 2000 and the accuracy at least 60%; Novice otherwise |
| Scoring.BadgeMonotoneInScore | script.js:658-664 | with the same answers, a higher score never gives a lower badge |
| Scoring.BadgeMonotoneInCorrect | script.js:647-664 | with the same score, one more correct answer never gives a lower badge |
| Scoring.BadgeThresholdExamples | script.js:653-664 | the badge at and just below each score and accuracy threshold |
| Sequences.Splice | script.js:433-438 | `splice(j, 1)` drops exactly element `j`: earlier elements keep their index, later ones move down by one |
| Collisions.LastHit | script.js:424-443 | the inner loop finds the highest-indexed enemy the shot overlaps, if there is one; when it finds none, the shot overlaps no enemy |
| Collisions.Resolve | script.js:418-446 | shots removed = enemies removed = the increase in `correctAnswers + wrongAnswers`, and a non-negative score stays non-negative |
| Collisions.ResolveSurvivors | script.js:418-446 | every surviving shot and enemy was live before the pass, and no surviving shot overlaps a surviving enemy |
| Collisions.ResolveKeepsOrder | script.js:420-440 | surviving shots and surviving enemies keep their original relative order |
| Collisions.SingleShotConsumesHighestHit | script.js:424-443 | a shot overlapping several enemies consumes only the highest-indexed one and scores it; the others stay live in place |
| Collisions.ResolveWithoutContact | script.js:418-446 | when no shot overlaps any enemy, the pass changes nothing |
| Field.EnemySpeed | script.js:65 | every difficulty moves enemies down by a positive amount per frame |
| Field.SpawnPeriod | script.js:66 | a new enemy is spawned every 3 to 7 whole seconds, depending on the difficulty |
| Field.HarderIsFaster | script.js:65-66 | a harder difficulty spawns more often and moves enemies faster |
| Field.NewShot | script.js:303-313 | a new shot carries the selected treatment, is centred on the player's top edge and ends exactly at the player's top (`y = top - 15`) |
| Field.NewEnemy | script.js:346-373 | a new enemy's condition is the table row the random draw falls in and it carries that row's `correctShot`; it appears at `y = -60` and, when the play area is at least 45 wide, fully inside `[0, width - 45]` |
| Field.AboveField | script.js:385 | a shot is removed exactly when its bottom edge, 15 below its `y`, is above the play area's top edge |
| Field.MovedShots | script.js:377-391 | after a frame there are no more shots than before and no surviving shot is above the field |
| Field.MovedShotsStep | script.js:380-389 | moving shot `i`, and splicing it out when it has left, extends the moved suffix of the list by one position |
| Field.MovedShotsMembers | script.js:379-390 | a shot survives, moved up by exactly 8, exactly when its new `y` is not below `-15`; every survivor is a moved original |
| Field.MovedShotsConcat | script.js:379-390 | survivors keep their order: the survivors of an earlier part of the list precede those of a later part |
| Field.BelowField | script.js:404 | an enemy is removed exactly when the play area has a measured height and the enemy's bottom edge is below it |
| Field.MovedEnemies | script.js:393-415 | after a frame there are no more enemies than before and no surviving enemy reaches below a measured field |
| Field.MovedEnemiesStep | script.js:399-413 | moving enemy `i`, and splicing it out when it has left, extends the moved suffix of the list by one position |
| Field.MovedEnemiesMembers | script.js:398-414 | an enemy survives, moved down by exactly its difficulty's speed, exactly when its bottom is not below a measured field's height; every survivor is a moved original |
| Field.MovedEnemiesConcat | script.js:398-414 | surviving enemies keep their order |
| Field.MovedEnemiesUnmeasuredField | script.js:404 | when the play area's height is not positive, every enemy moves and none is removed |
| Field.HalfWidthPercent | script.js:260-262 | a player no wider than the play area has a half-width between 0 and 50 percent |
| Field.Clamp | script.js:272 | the clamped position lies within `[half, 100 - half]` when `half <= 50`, leaves an in-range position unchanged, and is `half` when `half > 50` |
| Countdown.Minutes | script.js:230 | the whole minutes of the time, rounded down: `m * 60 <= t < m * 60 + 60` |
| Countdown.Seconds | script.js:231 | JavaScript's `%` keeps the sign of the time: in `[0, 60)` for a non-negative time, in `(-60, 0]` otherwise |
| Countdown.MinutesSecondsSplit | script.js:230-231 | for a non-negative time, `minutes * 60 + seconds` is the time, with `0 <= seconds < 60` and at most 3 minutes in a round |
| Countdown.PadStart2 | script.js:234 | a string of two or more characters comes back unchanged; a shorter one is padded on the left with `'0'` to exactly two characters |
| Countdown.TwoDigits | script.js:234 | a number below 100 is shown as exactly its two decimal digits |
| Countdown.TimerText | script.js:234 | the timer's text starts with `Time: ` and has at least 11 characters |
| Countdown.TimerTextRoundTrip | script.js:229-234 | below 100 minutes the timer text is `Time: MM:SS`, where MM are the two decimal digits of the minutes and SS those of the seconds (below 60), and it reads back as the time it shows |
| Game.GameState.constructor | script.js:44-56 | the initial state: score 0, 180 seconds, round not over, player at 50%, no shots or enemies, lubricant selected, medium difficulty |
| Game.GameState.StartGame | script.js:161-170 | from any state: score 0, 180 seconds, counters 0, no shots or enemies, player at 50%, round running |
| Game.GameState.ChooseDifficulty | script.js:92-95 | a difficulty button records the difficulty and starts a round as `StartGame` does |
| Game.GameState.GameLoop | script.js:206-216 | an ended round is left untouched; otherwise the frame's outcome is shots moved, enemies moved and collisions resolved, no surviving shot overlaps a surviving enemy, and the state stays valid |
| Game.GameState.UpdateTimer | script.js:219-227 | no-op once the round is over; otherwise one second passes and the round ends, showing its result, exactly when the countdown reaches 0; the countdown never goes below 0 |
| Game.GameState.TimerDisplay | script.js:229-234 | in any consistent state, including the moment the countdown has just reached 0 and the round is about to end, the timer text has 11 characters and reads back as the seconds left |
| Game.GameState.EndGame | script.js:618-664 | the first call ends the round and shows the final score, answers and badge; any later call changes nothing and shows nothing |
| Game.GameState.ResetGame | script.js:684-713 | from any state: score 0, 180 seconds, counters 0, no shots or enemies, player at 50%, lubricant selected, round not over |
| Game.GameState.MovePlayer | script.js:251-276 | no-op when the round is over or the play area has no width; otherwise one step left or right, clamped so the player stays within `[half, 100 - half]` |
| Game.GameState.Shoot | script.js:290-328 | no-op when the round is over; otherwise exactly one shot of the selected treatment is appended, at the player's top centre |
| Game.GameState.SelectShot | script.js:100-106 | a shot-type button selects its treatment |
| Game.GameState.SelectShotByIndex | script.js:558-566 | no-op when the round is over or the index is outside the buttons; otherwise the indexed button's treatment is selected |
| Game.GameState.SpawnEnemy | script.js:343-375 | no-op when the round is over or the play area has no width; otherwise exactly one enemy from the table is appended above the field, and the state stays valid |
| Game.GameState.MoveShots | script.js:377-391 | the reverse loop with in-place splicing leaves exactly the moved survivors, in order |
| Game.GameState.MoveEnemies | script.js:393-415 | the reverse loop with in-place splicing leaves exactly the moved survivors, in order, and the state stays valid |
| Game.GameState.HandleCollision | script.js:461-474 | +100 and one correct answer for the right treatment, otherwise one wrong answer and `min(20, score)` off; the score never goes below 0 |
| Game.GameState.CheckCollisions | script.js:418-446 | the nested reverse loops with `shotRemoved` and `break` leave exactly the shots, enemies and counters of `Resolve` |

## Left out

- Page and element handling: element lookup, the missing-element check, element creation and removal, style writes, screen switching, the score and end-screen texts, badge images and the selected-button highlight. These are presentation only; the values they display are what the model returns.
- Scheduling: `setInterval`/`clearInterval` and the explosion's `setTimeout`. Each tick is a direct call to `GameLoop`, `UpdateTimer` or `SpawnEnemy`. The explosion drawn on a hit has no effect on the state.
- Keyboard dispatch and touch handling: they only translate device input into the commands the model has, `MovePlayer`, `Shoot` and `SelectShotByIndex`. Touch dragging depends on `clientX` and live layout.
- Console logging throughout.
- The commented-out earlier drafts after the live script: they are never executed.
- Entities.Hits: an element is measured once. The enemy's rectangle uses the size measured when it spawned, and the shot's rectangle is the fixed 8 by 15 style. The browser's `getBoundingClientRect` is not modelled. `CollidingTranslationInvariant` shows that using play-area coordinates instead of viewport coordinates does not change the result.
- Entities.Hits: the missing-element guard of `isColliding` is not modelled. Every live shot and enemy in the model has an element.
- Field.MovedEnemies: the height used for eviction is the size measured at spawn, not `offsetHeight` re-read each frame.
- Scoring.BadgeFor: accuracy is an exact rational, not a floating-point number. At an exact threshold, JavaScript's rounding could give a different badge.
- Positions are exact reals. Floating-point rounding of positions is not modelled.
- The difficulty and the shot type are closed datatypes. In the script they are strings read from HTML attributes, and an unknown string would make the speed lookups undefined.
- Shots and enemies are values held in sequences. The script's objects are mutated only through these arrays, so no aliasing is lost.
