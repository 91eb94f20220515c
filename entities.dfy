/**
 * The entities of Eye Drop Invaders: the five treatments a shot can carry,
 * the five eye conditions an enemy can show, the fixed condition-to-treatment
 * table, the live shot and enemy records, and the closed-rectangle overlap
 * test the collision pass uses.
 */
module Entities {

  /** The treatment a shot carries ('lubricant', 'antihistaminic', ...). */
  datatype ShotType = Lubricant | Antihistaminic | Decongestant | Cs | Ts

  /** The condition an enemy shows ('dry-eye', 'allergic-conjunctivitis', ...). */
  datatype EnemyKind = DryEye | AllergicConjunctivitis | SoreEye | RedEyes | Glaucoma

  datatype Difficulty = Easy | Medium | Hard

  datatype Option<T> = None | Some(value: T)

  /** The identifier the source uses for each shot type. */
  function ShotTypeName(t: ShotType): string
  {
    match t
    case Lubricant => "lubricant"
    case Antihistaminic => "antihistaminic"
    case Decongestant => "decongestant"
    case Cs => "cs"
    case Ts => "ts"
  }

  /** The source compares shot types as strings; distinct names make that the same as comparing the variants. */
  lemma ShotTypeNamesDistinct(a: ShotType, b: ShotType)
    ensures ShotTypeName(a) == ShotTypeName(b) <==> a == b
  {
    if a != b {
      assert |ShotTypeName(a)| != |ShotTypeName(b)| || ShotTypeName(a)[0] != ShotTypeName(b)[0];
    }
  }

  /** Number of rows in the enemy table. */
  const EnemyTypeCount := 5

  /** Row `i` of the enemy table, in the table's order. */
  function EnemyKindAt(i: nat): (k: EnemyKind)
    requires i < EnemyTypeCount
    ensures RowOf(k) == i
  {
    if i == 0 then DryEye
    else if i == 1 then AllergicConjunctivitis
    else if i == 2 then SoreEye
    else if i == 3 then RedEyes
    else Glaucoma
  }

  /** The position of a condition's row in the enemy table. */
  function RowOf(k: EnemyKind): (i: nat)
    ensures i < EnemyTypeCount
  {
    match k
    case DryEye => 0
    case AllergicConjunctivitis => 1
    case SoreEye => 2
    case RedEyes => 3
    case Glaucoma => 4
  }

  /** Every condition sits in exactly one row. */
  lemma EnemyTableRowsRoundTrip(k: EnemyKind)
    ensures EnemyKindAt(RowOf(k)) == k
  {
  }

  /** The `correctShot` column of the enemy table, row by row. */
  const CorrectShotColumn: seq<ShotType> := [Lubricant, Antihistaminic, Decongestant, Cs, Ts]

  /** The `correctShot` of a condition's table row. */
  function CorrectShot(k: EnemyKind): (t: ShotType)
    ensures t == CorrectShotColumn[RowOf(k)]
  {
    match k
    case DryEye => Lubricant
    case AllergicConjunctivitis => Antihistaminic
    case SoreEye => Decongestant
    case RedEyes => Cs
    case Glaucoma => Ts
  }

  /** The condition a treatment cures: the inverse of the table's column. */
  function TreatedBy(t: ShotType): (k: EnemyKind)
    ensures CorrectShot(k) == t
  {
    match t
    case Lubricant => DryEye
    case Antihistaminic => AllergicConjunctivitis
    case Decongestant => SoreEye
    case Cs => RedEyes
    case Ts => Glaucoma
  }

  /** The table is one-to-one: each treatment cures exactly one condition. */
  lemma CorrectShotOneToOne(k: EnemyKind, t: ShotType)
    ensures CorrectShot(k) == t <==> k == TreatedBy(t)
  {
  }

  /** A live shot: its treatment and the top-left corner of its element. */
  datatype Shot = Shot(kind: ShotType, x: real, y: real)

  /**
   * A live enemy: its condition, the treatment recorded for it at spawn,
   * the top-left corner of its element and the element's rendered size.
   */
  datatype Enemy = Enemy(kind: EnemyKind, correctShot: ShotType, x: real, y: real, w: real, h: real)

  /** Shots are styled 8 by 15 pixels. */
  const ShotWidth: real := 8.0
  const ShotHeight: real := 15.0

  /** A bounding rectangle, as `getBoundingClientRect` reports it. */
  datatype Rect = Rect(left: real, top: real, right: real, bottom: real)

  ghost predicate WellFormed(r: Rect)
  {
    r.left <= r.right && r.top <= r.bottom
  }

  function Max(a: real, b: real): real
  {
    if a < b then b else a
  }

  function Min(a: real, b: real): real
  {
    if a < b then a else b
  }

  /**
   * The overlap test of `isColliding`: closed rectangles, so touching edges
   * overlap. For well-formed rectangles, it holds exactly when their
   * horizontal extents and their vertical extents intersect.
   */
  predicate IsColliding(r1: Rect, r2: Rect)
    ensures WellFormed(r1) && WellFormed(r2) ==> (IsColliding(r1, r2) <==>
      Max(r1.left, r2.left) <= Min(r1.right, r2.right) && Max(r1.top, r2.top) <= Min(r1.bottom, r2.bottom))
  {
    !(r1.right < r2.left || r1.left > r2.right || r1.bottom < r2.top || r1.top > r2.bottom)
  }

  ghost predicate Contains(r: Rect, px: real, py: real)
  {
    r.left <= px <= r.right && r.top <= py <= r.bottom
  }

  /** Two well-formed rectangles collide exactly when some point lies in both. */
  lemma CollidingIffCommonPoint(r1: Rect, r2: Rect)
    requires WellFormed(r1) && WellFormed(r2)
    ensures IsColliding(r1, r2) <==> exists px, py :: Contains(r1, px, py) && Contains(r2, px, py)
  {
    if IsColliding(r1, r2) {
      var px := if r1.left < r2.left then r2.left else r1.left;
      var py := if r1.top < r2.top then r2.top else r1.top;
      assert Contains(r1, px, py) && Contains(r2, px, py);
    }
  }

  /** The test does not depend on the order of its arguments. */
  lemma CollidingSymmetric(r1: Rect, r2: Rect)
    ensures IsColliding(r1, r2) == IsColliding(r2, r1)
  {
  }

  /** Rectangles that only touch along an edge still collide. */
  lemma TouchingEdgesCollide(r1: Rect, r2: Rect)
    requires WellFormed(r1) && WellFormed(r2)
    requires ((r1.right == r2.left || r2.right == r1.left) && r1.top <= r2.bottom && r2.top <= r1.bottom) ||
             ((r1.bottom == r2.top || r2.bottom == r1.top) && r1.left <= r2.right && r2.left <= r1.right)
    ensures IsColliding(r1, r2)
  {
  }

  function Translate(r: Rect, dx: real, dy: real): Rect
  {
    Rect(r.left + dx, r.top + dy, r.right + dx, r.bottom + dy)
  }

  /**
   * Shifting both rectangles by the same offset leaves the answer unchanged,
   * so the test can be taken in the play area's own coordinates instead of
   * the page's.
   */
  lemma CollidingTranslationInvariant(r1: Rect, r2: Rect, dx: real, dy: real)
    ensures IsColliding(Translate(r1, dx, dy), Translate(r2, dx, dy)) == IsColliding(r1, r2)
  {
  }

  /** The rectangle of a shot element in play-area coordinates. */
  function ShotRect(s: Shot): (r: Rect)
    ensures WellFormed(r)
    ensures r.right - r.left == ShotWidth && r.bottom - r.top == ShotHeight
  {
    Rect(s.x, s.y, s.x + ShotWidth, s.y + ShotHeight)
  }

  /** The rectangle of an enemy element in play-area coordinates. */
  function EnemyRect(e: Enemy): Rect
  {
    Rect(e.x, e.y, e.x + e.w, e.y + e.h)
  }

  /** `isColliding(shot.element, enemy.element)`. */
  predicate Hits(s: Shot, e: Enemy)
    ensures Hits(s, e) <==>
      s.x <= e.x + e.w && e.x <= s.x + ShotWidth && s.y <= e.y + e.h && e.y <= s.y + ShotHeight
  {
    IsColliding(ShotRect(s), EnemyRect(e))
  }
}
