/**
 * Positions in the play field: where new shots and enemies appear, how far
 * each moves per frame, which of them leave the field, and how the player's
 * horizontal position is kept inside it. Positions are exact reals.
 */
module Field {
  import opened Entities
  import opened Sequences

  /** Shots rise 8 pixels per frame. */
  const ShotSpeed: real := 8.0

  /** Enemies fall 0.5, 1 or 1.5 pixels per frame depending on difficulty. */
  function EnemySpeed(d: Difficulty): (v: real)
    ensures 0.0 < v
  {
    match d
    case Easy => 0.5
    case Medium => 1.0
    case Hard => 1.5
  }

  /** Milliseconds between spawns. */
  function SpawnPeriod(d: Difficulty): (ms: nat)
    ensures 3000 <= ms <= 7000 && ms % 1000 == 0
  {
    match d
    case Easy => 7000
    case Medium => 5000
    case Hard => 3000
  }

  /** Harder rounds spawn more often and their enemies fall faster. */
  lemma HarderIsFaster()
    ensures SpawnPeriod(Hard) < SpawnPeriod(Medium) < SpawnPeriod(Easy)
    ensures EnemySpeed(Easy) < EnemySpeed(Medium) < EnemySpeed(Hard)
  {
  }

  /** Width the spawner reserves for an enemy. */
  const EnemySpawnWidth: real := 45.0
  /** Enemies appear 60 pixels above the top edge. */
  const EnemySpawnY: real := -60.0

  /**
   * The shot `shoot` creates: centred on the player's top edge and sitting
   * just above it. `left`, `top` and `width` are the player's measured
   * offsetLeft, offsetTop and offsetWidth.
   */
  function NewShot(kind: ShotType, left: int, top: int, width: int): (s: Shot)
    ensures s.kind == kind
    ensures s.x + ShotWidth / 2.0 == left as real + width as real / 2.0
    ensures s.y + ShotHeight == top as real
  {
    var centre := left as real + width as real / 2.0;
    Shot(kind, centre - ShotWidth / 2.0, top as real - ShotHeight)
  }

  /**
   * The enemy `spawnEnemy` creates from two draws of `Math.random()`: `pickKind`
   * chooses the table row, `pickX` the horizontal position. `gameW` is the
   * play area's width and `w`, `h` the new element's rendered size.
   */
  function NewEnemy(pickKind: real, pickX: real, gameW: int, w: real, h: real): (e: Enemy)
    requires 0.0 <= pickKind < 1.0 && 0.0 <= pickX < 1.0
    ensures e.correctShot == CorrectShot(e.kind)
    ensures RowOf(e.kind) as real <= pickKind * EnemyTypeCount as real < RowOf(e.kind) as real + 1.0
    ensures e.y == EnemySpawnY && e.w == w && e.h == h
    ensures gameW as real >= EnemySpawnWidth ==> 0.0 <= e.x <= gameW as real - EnemySpawnWidth
  {
    var scaled := pickKind * EnemyTypeCount as real;
    var row := scaled.Floor;
    assert row as real <= scaled < row as real + 1.0;
    assert 0 <= row < EnemyTypeCount;
    var kind := EnemyKindAt(row);
    assert RowOf(kind) == row;
    var g := gameW as real - EnemySpawnWidth;
    var x := pickX * g;
    assert g >= 0.0 ==> 0.0 <= x <= g by {
      if g >= 0.0 {
        ScaledWithin(pickX, g);
      }
    }
    Enemy(kind, CorrectShot(kind), x, EnemySpawnY, w, h)
  }

  /** A draw in `[0, 1)` scales a non-negative width to a position within it. */
  lemma ScaledWithin(p: real, g: real)
    requires 0.0 <= p < 1.0 && 0.0 <= g
    ensures 0.0 <= p * g <= g
  {
    assert g - p * g == (1.0 - p) * g;
  }

  /** A shot one frame later. */
  function Raised(s: Shot): Shot
  {
    s.(y := s.y - ShotSpeed)
  }

  /** A shot has left the field once its bottom edge is above the top edge. */
  predicate AboveField(s: Shot)
    ensures AboveField(s) <==> ShotRect(s).bottom < 0.0
  {
    s.y < -ShotHeight
  }

  /** The shots `moveShots` leaves: every shot one frame higher, those above the field removed. */
  function MovedShots(shots: seq<Shot>): (r: seq<Shot>)
    ensures |r| <= |shots|
    ensures forall k :: 0 <= k < |r| ==> !AboveField(r[k])
  {
    if shots == [] then []
    else
      var s := Raised(shots[0]);
      (if AboveField(s) then [] else [s]) + MovedShots(shots[1..])
  }

  lemma MovedShotsCons(s: Shot, rest: seq<Shot>)
    ensures MovedShots([s] + rest) == (if AboveField(Raised(s)) then [] else [Raised(s)]) + MovedShots(rest)
  {
    assert ([s] + rest)[1..] == rest;
  }

  /**
   * One step of `moveShots`, which walks the list from its end: with the
   * shots after `i` already moved, moving shot `i` (and splicing it out if
   * it has left the field) leaves the shots from `i` on moved.
   */
  lemma MovedShotsStep(before: seq<Shot>, i: nat, cur: seq<Shot>)
    requires i < |before|
    requires cur == before[..i + 1] + MovedShots(before[i + 1..])
    ensures i < |cur| && cur[i] == before[i]
    ensures !AboveField(Raised(before[i])) ==> cur[i := Raised(before[i])] == before[..i] + MovedShots(before[i..])
    ensures AboveField(Raised(before[i])) ==> Splice(cur[i := Raised(before[i])], i) == before[..i] + MovedShots(before[i..])
  {
    var tail := MovedShots(before[i + 1..]);
    assert before[..i + 1] == before[..i] + [before[i]];
    assert before[i..] == [before[i]] + before[i + 1..];
    MovedShotsCons(before[i], before[i + 1..]);
    ReplaceThenKeepOrDrop(before[..i], before[i], Raised(before[i]), tail);
  }

  /** Exactly the shots still inside the field after the move survive, and nothing else appears. */
  lemma {:induction false} MovedShotsMembers(shots: seq<Shot>)
    ensures forall s :: s in shots ==> (Raised(s) in MovedShots(shots) <==> !AboveField(Raised(s)))
    ensures forall s :: s in MovedShots(shots) ==> exists o :: o in shots && s == Raised(o)
  {
    if shots != [] {
      MovedShotsMembers(shots[1..]);
      assert shots == [shots[0]] + shots[1..];
    }
  }

  /** Survivors keep their order: moving a concatenation moves each part in place. */
  lemma {:induction false} MovedShotsConcat(a: seq<Shot>, b: seq<Shot>)
    ensures MovedShots(a + b) == MovedShots(a) + MovedShots(b)
  {
    if a != [] {
      assert (a + b)[0] == a[0];
      assert (a + b)[1..] == a[1..] + b;
      MovedShotsConcat(a[1..], b);
    } else {
      assert a + b == b;
    }
  }

  /** An enemy one frame later. */
  function Advanced(e: Enemy, d: Difficulty): Enemy
  {
    e.(y := e.y + EnemySpeed(d))
  }

  /** An enemy has left the field once its bottom edge is below a measurable field's bottom. */
  predicate BelowField(e: Enemy, gameH: int)
    ensures BelowField(e, gameH) <==> gameH > 0 && EnemyRect(e).bottom > gameH as real
  {
    gameH > 0 && e.y + e.h > gameH as real
  }

  /** The enemies `moveEnemies` leaves: every enemy one frame lower, those below the field removed. */
  function MovedEnemies(enemies: seq<Enemy>, d: Difficulty, gameH: int): (r: seq<Enemy>)
    ensures |r| <= |enemies|
    ensures forall k :: 0 <= k < |r| ==> !BelowField(r[k], gameH)
  {
    if enemies == [] then []
    else
      var e := Advanced(enemies[0], d);
      (if BelowField(e, gameH) then [] else [e]) + MovedEnemies(enemies[1..], d, gameH)
  }

  lemma MovedEnemiesCons(e: Enemy, rest: seq<Enemy>, d: Difficulty, gameH: int)
    ensures MovedEnemies([e] + rest, d, gameH) ==
      (if BelowField(Advanced(e, d), gameH) then [] else [Advanced(e, d)]) + MovedEnemies(rest, d, gameH)
  {
    assert ([e] + rest)[1..] == rest;
  }

  /**
   * One step of `moveEnemies`, which walks the list from its end: with the
   * enemies after `i` already moved, moving enemy `i` (and splicing it out
   * if it has left the field) leaves the enemies from `i` on moved.
   */
  lemma MovedEnemiesStep(before: seq<Enemy>, i: nat, cur: seq<Enemy>, d: Difficulty, gameH: int)
    requires i < |before|
    requires cur == before[..i + 1] + MovedEnemies(before[i + 1..], d, gameH)
    ensures i < |cur| && cur[i] == before[i]
    ensures !BelowField(Advanced(before[i], d), gameH) ==>
      cur[i := Advanced(before[i], d)] == before[..i] + MovedEnemies(before[i..], d, gameH)
    ensures BelowField(Advanced(before[i], d), gameH) ==>
      Splice(cur[i := Advanced(before[i], d)], i) == before[..i] + MovedEnemies(before[i..], d, gameH)
  {
    var tail := MovedEnemies(before[i + 1..], d, gameH);
    assert before[..i + 1] == before[..i] + [before[i]];
    assert before[i..] == [before[i]] + before[i + 1..];
    MovedEnemiesCons(before[i], before[i + 1..], d, gameH);
    ReplaceThenKeepOrDrop(before[..i], before[i], Advanced(before[i], d), tail);
  }

  /** Exactly the enemies still inside the field after the move survive, and nothing else appears. */
  lemma {:induction false} MovedEnemiesMembers(enemies: seq<Enemy>, d: Difficulty, gameH: int)
    ensures forall e :: e in enemies ==>
      (Advanced(e, d) in MovedEnemies(enemies, d, gameH) <==> !BelowField(Advanced(e, d), gameH))
    ensures forall e :: e in MovedEnemies(enemies, d, gameH) ==> exists o :: o in enemies && e == Advanced(o, d)
  {
    if enemies != [] {
      MovedEnemiesMembers(enemies[1..], d, gameH);
      assert enemies == [enemies[0]] + enemies[1..];
    }
  }

  /** Survivors keep their order: moving a concatenation moves each part in place. */
  lemma {:induction false} MovedEnemiesConcat(a: seq<Enemy>, b: seq<Enemy>, d: Difficulty, gameH: int)
    ensures MovedEnemies(a + b, d, gameH) == MovedEnemies(a, d, gameH) + MovedEnemies(b, d, gameH)
  {
    if a != [] {
      assert (a + b)[0] == a[0];
      assert (a + b)[1..] == a[1..] + b;
      MovedEnemiesConcat(a[1..], b, d, gameH);
    } else {
      assert a + b == b;
    }
  }

  /** While the field has no measurable height, every enemy moves and none is removed. */
  lemma {:induction false} MovedEnemiesUnmeasuredField(enemies: seq<Enemy>, d: Difficulty, gameH: int)
    requires gameH <= 0
    ensures |MovedEnemies(enemies, d, gameH)| == |enemies|
    ensures forall k :: 0 <= k < |enemies| ==> MovedEnemies(enemies, d, gameH)[k] == Advanced(enemies[k], d)
  {
    if enemies != [] {
      MovedEnemiesUnmeasuredField(enemies[1..], d, gameH);
    }
  }

  /** The player moves 2 percent of the field's width per command. */
  const PlayerSpeed: real := 2.0

  datatype Direction = Left | Right

  /** Half the player's width as a percentage of the field's width. */
  function HalfWidthPercent(playerW: int, gameW: int): (half: real)
    requires gameW > 0
    ensures 0 <= playerW <= gameW ==> 0.0 <= half <= 50.0
  {
    var p := playerW as real / gameW as real;
    assert 0 <= playerW <= gameW ==> p <= 1.0 by {
      if 0 <= playerW <= gameW {
        assert p * gameW as real == playerW as real;
      }
    }
    p * 50.0
  }

  /** `Math.max(half, Math.min(100 - half, x))`. */
  function Clamp(half: real, x: real): (r: real)
    ensures half <= 50.0 ==> half <= r <= 100.0 - half
    ensures half <= x <= 100.0 - half ==> r == x
    ensures half > 50.0 ==> r == half
  {
    var m := if 100.0 - half < x then 100.0 - half else x;
    if half < m then m else half
  }
}
