/**
 * The game's mutable state and the handlers that change it. Every handler
 * of the script becomes a method of `GameState`; the play area's and the
 * player's measured sizes and the draws of `Math.random()` arrive as
 * parameters, and screen output is returned rather than written.
 */
module Game {
  import opened Entities
  import opened Scoring
  import opened Sequences
  import opened Collisions
  import opened Field
  import opened Countdown

  class GameState {
    var score: int
    var timeLeft: int
    var isGameOver: bool
    /** Centre of the player, as a percentage of the play area's width. */
    var playerX: real
    var shots: seq<Shot>
    var enemies: seq<Enemy>
    var selectedShotType: ShotType
    var correctAnswers: nat
    var wrongAnswers: nat
    var difficulty: Difficulty

    /**
     * The score is never negative, the countdown stays within the round and
     * is positive while the round runs, and every live enemy carries the
     * treatment the table gives its condition.
     */
    ghost predicate Valid()
      reads this
    {
      Consistent() && (!isGameOver ==> timeLeft > 0)
    }

    /** `Valid` without the link between the countdown and the end of the round. */
    ghost predicate Consistent()
      reads this
    {
      && score >= 0
      && 0 <= timeLeft <= RoundSeconds
      && forall e :: e in enemies ==> e.correctShot == CorrectShot(e.kind)
    }

    function Counters(): Tally
      reads this
    {
      Tally(score, correctAnswers, wrongAnswers)
    }

    /** The state the script starts in. */
    constructor ()
      ensures Valid()
      ensures score == 0 && timeLeft == RoundSeconds && !isGameOver && playerX == 50.0
      ensures shots == [] && enemies == [] && selectedShotType == Lubricant
      ensures correctAnswers == 0 && wrongAnswers == 0 && difficulty == Medium
    {
      score := 0;
      timeLeft := RoundSeconds;
      isGameOver := false;
      playerX := 50.0;
      shots := [];
      enemies := [];
      selectedShotType := Lubricant;
      correctAnswers := 0;
      wrongAnswers := 0;
      difficulty := Medium;
    }

    /** Begins a round: whatever the previous state, everything restarts. */
    method StartGame()
      modifies this`isGameOver, this`score, this`timeLeft, this`correctAnswers, this`wrongAnswers
      modifies this`shots, this`enemies, this`playerX
      ensures Valid()
      ensures !isGameOver && score == 0 && timeLeft == RoundSeconds
      ensures correctAnswers == 0 && wrongAnswers == 0
      ensures shots == [] && enemies == [] && playerX == 50.0
    {
      isGameOver := false;
      score := 0;
      timeLeft := RoundSeconds;
      correctAnswers := 0;
      wrongAnswers := 0;
      shots := [];
      enemies := [];
      playerX := 50.0;
    }

    /** A difficulty button: records the difficulty and starts a round. */
    method ChooseDifficulty(d: Difficulty)
      modifies this`difficulty, this`isGameOver, this`score, this`timeLeft, this`correctAnswers
      modifies this`wrongAnswers, this`shots, this`enemies, this`playerX
      ensures Valid() && difficulty == d
      ensures !isGameOver && score == 0 && timeLeft == RoundSeconds
      ensures correctAnswers == 0 && wrongAnswers == 0
      ensures shots == [] && enemies == [] && playerX == 50.0
    {
      difficulty := d;
      StartGame();
    }

    /** One frame: move shots, move enemies, then resolve collisions, unless the round is over. */
    method GameLoop(gameH: int)
      requires Valid()
      modifies this`shots, this`enemies, this`score, this`correctAnswers, this`wrongAnswers
      ensures Valid()
      ensures old(isGameOver) ==> unchanged(this)
      ensures !old(isGameOver) ==>
        var r := Resolve(MovedShots(old(shots)), MovedEnemies(old(enemies), difficulty, gameH), old(Counters()));
        shots == r.shots && enemies == r.enemies && Counters() == r.tally
      ensures !old(isGameOver) ==> forall x, e :: x in shots && e in enemies ==> !Hits(x, e)
    {
      if isGameOver {
        return;
      }
      MoveShots();
      MoveEnemies(gameH);
      ghost var moved := enemies;
      CheckCollisions();
      ResolveSurvivors(MovedShots(old(shots)), moved, old(Counters()));
    }

    /**
     * The once-a-second tick: while the round runs, one second passes, and
     * the round ends exactly when no time is left. Returns what the end
     * screen shows when this tick ended the round.
     */
    method UpdateTimer() returns (shown: Option<RoundResult>)
      requires Valid()
      modifies this`timeLeft, this`isGameOver
      ensures Valid()
      ensures old(isGameOver) ==> unchanged(this) && shown == None
      ensures !old(isGameOver) ==> timeLeft == old(timeLeft) - 1
      ensures !old(isGameOver) ==> (isGameOver <==> timeLeft == 0) && (shown.Some? <==> timeLeft == 0)
      ensures shown.Some? ==> shown.value == RoundResult(score, correctAnswers, wrongAnswers,
                                                         BadgeFor(score, correctAnswers, wrongAnswers))
    {
      if isGameOver {
        return None;
      }
      timeLeft := timeLeft - 1;
      shown := None;
      if timeLeft <= 0 {
        shown := EndGame();
      }
    }

    /** The timer's text for the current countdown. */
    function TimerDisplay(): (text: string)
      requires Consistent()
      reads this
      ensures |text| == 11 && ReadClock(text) == timeLeft
    {
      TimerTextRoundTrip(timeLeft);
      TimerText(timeLeft)
    }

    /**
     * Ends the round once: the first call stops the round and returns the
     * final score, answers and badge; any later call changes nothing and
     * shows nothing.
     */
    method EndGame() returns (shown: Option<RoundResult>)
      requires Consistent()
      modifies this`isGameOver
      ensures Valid() && isGameOver
      ensures old(isGameOver) ==> unchanged(this) && shown == None
      ensures !old(isGameOver) ==>
        shown == Some(RoundResult(score, correctAnswers, wrongAnswers, BadgeFor(score, correctAnswers, wrongAnswers)))
    {
      if isGameOver {
        return None;
      }
      isGameOver := true;
      var badge := BadgeFor(score, correctAnswers, wrongAnswers);
      shown := Some(RoundResult(score, correctAnswers, wrongAnswers, badge));
    }

    /** The play-again button: clears the round and returns to a state ready to start. */
    method ResetGame()
      modifies this`isGameOver, this`score, this`timeLeft, this`correctAnswers, this`wrongAnswers
      modifies this`shots, this`enemies, this`playerX, this`selectedShotType
      ensures Valid()
      ensures !isGameOver && score == 0 && timeLeft == RoundSeconds
      ensures correctAnswers == 0 && wrongAnswers == 0
      ensures shots == [] && enemies == [] && playerX == 50.0 && selectedShotType == Lubricant
    {
      enemies := [];
      shots := [];
      score := 0;
      timeLeft := RoundSeconds;
      correctAnswers := 0;
      wrongAnswers := 0;
      playerX := 50.0;
      selectedShotType := Lubricant;
      isGameOver := false;
    }

    /**
     * Moves the player one step and keeps its centre at least half its width
     * from either edge. `gameW` and `playerW` are the measured widths of the
     * play area and of the player.
     */
    method MovePlayer(direction: Direction, gameW: int, playerW: int)
      modifies this`playerX
      ensures isGameOver || gameW <= 0 ==> playerX == old(playerX)
      ensures !isGameOver && gameW > 0 ==>
        playerX == Clamp(HalfWidthPercent(playerW, gameW),
                         old(playerX) + (if direction == Left then -PlayerSpeed else PlayerSpeed))
      ensures !isGameOver && 0 <= playerW <= gameW && gameW > 0 ==>
        HalfWidthPercent(playerW, gameW) <= playerX <= 100.0 - HalfWidthPercent(playerW, gameW)
    {
      if isGameOver {
        return;
      }
      if gameW <= 0 {
        return;
      }
      var half := HalfWidthPercent(playerW, gameW);
      if direction == Left {
        playerX := playerX - PlayerSpeed;
      } else {
        playerX := playerX + PlayerSpeed;
      }
      playerX := Clamp(half, playerX);
    }

    /**
     * Fires the selected treatment from the player's top centre. `left`,
     * `top` and `width` are the player's measured offsets and width.
     */
    method Shoot(left: int, top: int, width: int)
      modifies this`shots
      ensures isGameOver ==> shots == old(shots)
      ensures !isGameOver ==> shots == old(shots) + [NewShot(selectedShotType, left, top, width)]
    {
      if isGameOver {
        return;
      }
      var shot := NewShot(selectedShotType, left, top, width);
      shots := shots + [shot];
    }

    /** A shot-type button: selects its treatment, even between rounds. */
    method SelectShot(t: ShotType)
      modifies this`selectedShotType
      ensures selectedShotType == t
    {
      selectedShotType := t;
    }

    /**
     * A number key: selects the treatment of the `index`-th shot button.
     * `buttons` lists the buttons' treatments in page order.
     */
    method SelectShotByIndex(index: int, buttons: seq<ShotType>)
      modifies this`selectedShotType
      ensures isGameOver || !(0 <= index < |buttons|) ==> selectedShotType == old(selectedShotType)
      ensures !isGameOver && 0 <= index < |buttons| ==> selectedShotType == buttons[index]
    {
      if isGameOver {
        return;
      }
      if 0 <= index < |buttons| {
        selectedShotType := buttons[index];
      }
    }

    /**
     * Adds one enemy above the field, unless the round is over or the play
     * area has no width. `pickKind` and `pickX` are two draws of
     * `Math.random()`; `w` and `h` are the new element's rendered size.
     */
    method SpawnEnemy(pickKind: real, pickX: real, gameW: int, w: real, h: real)
      requires Valid()
      requires 0.0 <= pickKind < 1.0 && 0.0 <= pickX < 1.0
      modifies this`enemies
      ensures Valid()
      ensures isGameOver || gameW <= 0 ==> enemies == old(enemies)
      ensures !isGameOver && gameW > 0 ==> enemies == old(enemies) + [NewEnemy(pickKind, pickX, gameW, w, h)]
    {
      if isGameOver {
        return;
      }
      if gameW <= 0 {
        return;
      }
      var enemy := NewEnemy(pickKind, pickX, gameW, w, h);
      enemies := enemies + [enemy];
    }

    /** Moves every shot up and removes those that have left the field, walking the list from its end. */
    method MoveShots()
      modifies this`shots
      ensures shots == MovedShots(old(shots))
    {
      ghost var before := shots;
      var i := |shots| - 1;
      while i >= 0
        invariant -1 <= i < |before|
        invariant shots == before[..i + 1] + MovedShots(before[i + 1..])
      {
        MovedShotsStep(before, i, shots);
        var shot := shots[i];
        shot := shot.(y := shot.y - ShotSpeed);
        shots := shots[i := shot];
        if shot.y < -ShotHeight {
          shots := Splice(shots, i);
        }
        i := i - 1;
      }
    }

    /** Moves every enemy down and removes those that have left a measurable field, walking the list from its end. */
    method MoveEnemies(gameH: int)
      requires Valid()
      modifies this`enemies
      ensures Valid()
      ensures enemies == MovedEnemies(old(enemies), difficulty, gameH)
    {
      ghost var before := enemies;
      var speed := EnemySpeed(difficulty);
      var i := |enemies| - 1;
      while i >= 0
        invariant -1 <= i < |before|
        invariant enemies == before[..i + 1] + MovedEnemies(before[i + 1..], difficulty, gameH)
      {
        MovedEnemiesStep(before, i, enemies, difficulty, gameH);
        var enemy := enemies[i];
        enemy := enemy.(y := enemy.y + speed);
        enemies := enemies[i := enemy];
        if gameH > 0 && enemy.y + enemy.h > gameH as real {
          enemies := Splice(enemies, i);
        }
        i := i - 1;
      }
      MovedEnemiesMembers(before, difficulty, gameH);
    }

    /** Scores one hit: +100 and a correct answer for the right treatment, else -20 and a wrong answer; never below zero. */
    method HandleCollision(shot: Shot, enemy: Enemy)
      modifies this`score, this`correctAnswers, this`wrongAnswers
      ensures Counters() == Scored(old(Counters()), shot.kind, enemy.correctShot)
      ensures score >= 0
      ensures shot.kind == enemy.correctShot ==>
        correctAnswers == old(correctAnswers) + 1 && wrongAnswers == old(wrongAnswers)
      ensures shot.kind != enemy.correctShot ==>
        wrongAnswers == old(wrongAnswers) + 1 && correctAnswers == old(correctAnswers)
      ensures old(score) >= 0 && shot.kind == enemy.correctShot ==> score == old(score) + 100
      ensures old(score) >= 0 && shot.kind != enemy.correctShot ==>
        score == old(score) - (if old(score) < 20 then old(score) else 20)
    {
      if shot.kind == enemy.correctShot {
        score := score + PointsCorrect;
        correctAnswers := correctAnswers + 1;
      } else {
        score := score + PointsWrong;
        wrongAnswers := wrongAnswers + 1;
      }
      score := if 0 < score then score else 0;
    }

    /**
     * Resolves every overlapping shot and enemy, walking the shots from the
     * last to the first and, for each, the enemies from the last to the first.
     * The first enemy found is scored and removed together with the shot.
     */
    method CheckCollisions()
      modifies this`shots, this`enemies, this`score, this`correctAnswers, this`wrongAnswers
      ensures var r := Resolve(old(shots), old(enemies), old(Counters()));
        shots == r.shots && enemies == r.enemies && Counters() == r.tally
    {
      ghost var shots0, enemies0, t0 := shots, enemies, Counters();
      ghost var kept: seq<Shot> := [];
      var i := |shots| - 1;
      assert shots0[..i + 1] == shots0;
      assert Resolve(shots0, enemies, Counters()).shots + kept == Resolve(shots0, enemies, Counters()).shots;
      while i >= 0
        invariant -1 <= i < |shots0|
        invariant shots == shots0[..i + 1] + kept
        invariant Resolve(shots0, enemies0, t0) == Extend(Resolve(shots0[..i + 1], enemies, Counters()), kept)
      {
        var shot := shots[i];
        var shotRemoved := false;
        ghost var enemiesBefore, tBefore := enemies, Counters();
        var j := |enemies| - 1;
        assert enemies[..j + 1] == enemies;
        while j >= 0
          invariant -1 <= j < |enemies|
          invariant !shotRemoved && enemies == enemiesBefore && Counters() == tBefore
          invariant shots == shots0[..i + 1] + kept
          invariant LastHit(shot, enemies) == LastHit(shot, enemies[..j + 1])
        {
          if Hits(shot, enemies[j]) {
            LastHitAtEnd(shot, enemies, j);
            PassStepHits(shots0, i, enemies, Counters(), kept, j);
            HandleCollision(shot, enemies[j]);
            enemies := Splice(enemies, j);
            if !shotRemoved {
              shots := Splice(shots, i);
              shotRemoved := true;
            }
            break;
          }
          LastHitPastMiss(shot, enemies, j);
          j := j - 1;
        }
        if !shotRemoved {
          PassStepMisses(shots0, i, enemies, Counters(), kept);
          kept := [shot] + kept;
        }
        i := i - 1;
      }
      assert shots0[..0] == [];
    }
  }
}
