/**
 * The collision pass of one game-loop tick, as a function of the live shots,
 * the live enemies and the tally. Shots are taken from the last to the
 * first; each one is matched against the highest-indexed enemy it overlaps,
 * and a matched pair is removed from both lists and scored before the next
 * shot is looked at.
 */
module Collisions {
  import opened Entities
  import opened Scoring
  import opened Sequences

  /** The highest index of an enemy the shot overlaps, if any: what the inner loop of `checkCollisions` finds. */
  function LastHit(s: Shot, es: seq<Enemy>): (r: Option<nat>)
    ensures r.Some? ==> r.value < |es| && Hits(s, es[r.value])
    ensures r.Some? ==> forall k :: r.value < k < |es| ==> !Hits(s, es[k])
    ensures r.None? ==> forall k :: 0 <= k < |es| ==> !Hits(s, es[k])
    decreases |es|
  {
    if es == [] then None
    else if Hits(s, es[|es| - 1]) then Some(|es| - 1)
    else LastHit(s, es[..|es| - 1])
  }

  /** Looking one enemy further down the list, past an enemy the shot misses, finds the same hit. */
  lemma LastHitPastMiss(s: Shot, es: seq<Enemy>, j: nat)
    requires j < |es| && !Hits(s, es[j])
    ensures LastHit(s, es[..j + 1]) == LastHit(s, es[..j])
  {
    assert es[..j + 1][..j] == es[..j];
  }

  /** The highest-indexed enemy of a prefix that the shot overlaps is its last one. */
  lemma LastHitAtEnd(s: Shot, es: seq<Enemy>, j: nat)
    requires j < |es| && Hits(s, es[j])
    ensures LastHit(s, es[..j + 1]) == Some(j)
  {
  }

  /** The lists that survive the pass and the tally it leaves. */
  datatype Resolution = Resolution(shots: seq<Shot>, enemies: seq<Enemy>, tally: Tally)

  /** Puts back `kept`, shots already looked at and not consumed, behind the survivors. */
  function Extend(r: Resolution, kept: seq<Shot>): Resolution
  {
    Resolution(r.shots + kept, r.enemies, r.tally)
  }

  /**
   * The outcome of `checkCollisions`. Each hit removes one shot and one
   * enemy and counts one answer, and the score stays non-negative.
   */
  function Resolve(shots: seq<Shot>, enemies: seq<Enemy>, t: Tally): (r: Resolution)
    ensures |r.shots| + Answers(r.tally) == |shots| + Answers(t)
    ensures |r.enemies| + Answers(r.tally) == |enemies| + Answers(t)
    ensures t.score >= 0 ==> r.tally.score >= 0
    decreases |shots|
  {
    if shots == [] then Resolution([], enemies, t)
    else
      var s := shots[|shots| - 1];
      var rest := shots[..|shots| - 1];
      match LastHit(s, enemies)
      case None =>
        Extend(Resolve(rest, enemies, t), [s])
      case Some(j) =>
        Resolve(rest, Splice(enemies, j), Scored(t, s.kind, enemies[j].correctShot))
  }

  lemma ExtendTwice(r: Resolution, a: seq<Shot>, b: seq<Shot>)
    ensures Extend(Extend(r, a), b) == Extend(r, a + b)
  {
  }

  /** The last shot hits nothing: it survives, behind whatever the earlier shots leave. */
  lemma ResolveLastMisses(rest: seq<Shot>, s: Shot, enemies: seq<Enemy>, t: Tally)
    requires LastHit(s, enemies) == None
    ensures Resolve(rest + [s], enemies, t) == Extend(Resolve(rest, enemies, t), [s])
  {
    assert (rest + [s])[..|rest|] == rest;
  }

  /** The last shot hits enemy `j`: both go, the hit is scored, and the earlier shots face the rest. */
  lemma ResolveLastHits(rest: seq<Shot>, s: Shot, enemies: seq<Enemy>, t: Tally, j: nat)
    requires LastHit(s, enemies) == Some(j)
    ensures j < |enemies|
    ensures Resolve(rest + [s], enemies, t) ==
      Resolve(rest, Splice(enemies, j), Scored(t, s.kind, enemies[j].correctShot))
  {
    assert (rest + [s])[..|rest|] == rest;
  }

  /**
   * One step of `checkCollisions`, which walks the shots from the end, when
   * shot `i` hits nothing: it joins the shots already kept, and the pass
   * continues with the shots before it.
   */
  lemma PassStepMisses(shots: seq<Shot>, i: nat, enemies: seq<Enemy>, t: Tally, kept: seq<Shot>)
    requires i < |shots| && LastHit(shots[i], enemies) == None
    ensures shots[..i + 1] + kept == shots[..i] + ([shots[i]] + kept)
    ensures Extend(Resolve(shots[..i + 1], enemies, t), kept) ==
      Extend(Resolve(shots[..i], enemies, t), [shots[i]] + kept)
  {
    assert shots[..i + 1] == shots[..i] + [shots[i]];
    ResolveLastMisses(shots[..i], shots[i], enemies, t);
    ExtendTwice(Resolve(shots[..i], enemies, t), [shots[i]], kept);
  }

  /**
   * One step of `checkCollisions` when shot `i` hits enemy `j`: both are
   * spliced out, the hit is scored, and the pass continues with the shots
   * before it.
   */
  lemma PassStepHits(shots: seq<Shot>, i: nat, enemies: seq<Enemy>, t: Tally, kept: seq<Shot>, j: nat)
    requires i < |shots| && LastHit(shots[i], enemies) == Some(j)
    ensures j < |enemies|
    ensures i < |shots[..i + 1] + kept| && (shots[..i + 1] + kept)[i] == shots[i]
    ensures Splice(shots[..i + 1] + kept, i) == shots[..i] + kept
    ensures Extend(Resolve(shots[..i + 1], enemies, t), kept) ==
      Extend(Resolve(shots[..i], Splice(enemies, j), Scored(t, shots[i].kind, enemies[j].correctShot)), kept)
  {
    assert shots[..i + 1] == shots[..i] + [shots[i]];
    ResolveLastHits(shots[..i], shots[i], enemies, t, j);
    SpliceMiddle(shots[..i], shots[i], kept);
  }

  /**
   * What survives the pass comes from its input, and no surviving shot
   * overlaps a surviving enemy.
   */
  lemma {:induction false} ResolveSurvivors(shots: seq<Shot>, enemies: seq<Enemy>, t: Tally)
    ensures forall x :: x in Resolve(shots, enemies, t).shots ==> x in shots
    ensures forall e :: e in Resolve(shots, enemies, t).enemies ==> e in enemies
    ensures forall x, e :: x in Resolve(shots, enemies, t).shots && e in Resolve(shots, enemies, t).enemies ==> !Hits(x, e)
    decreases |shots|
  {
    if shots != [] {
      var s := shots[|shots| - 1];
      var rest := shots[..|shots| - 1];
      match LastHit(s, enemies)
      case None =>
        ResolveSurvivors(rest, enemies, t);
      case Some(j) =>
        var e' := Splice(enemies, j);
        ResolveSurvivors(rest, e', Scored(t, s.kind, enemies[j].correctShot));
        forall e | e in e' ensures e in enemies {
          var k :| 0 <= k < |e'| && e'[k] == e;
          assert e == enemies[if k < j then k else k + 1];
        }
    }
  }

  /** Both lists keep their survivors in their original relative order. */
  lemma {:induction false} ResolveKeepsOrder(shots: seq<Shot>, enemies: seq<Enemy>, t: Tally)
    ensures SubseqOf(Resolve(shots, enemies, t).shots, shots)
    ensures SubseqOf(Resolve(shots, enemies, t).enemies, enemies)
    decreases |shots|
  {
    if shots == [] {
      SubseqOfSelf(enemies);
    } else {
      var s := shots[|shots| - 1];
      var rest := shots[..|shots| - 1];
      match LastHit(s, enemies)
      case None =>
        ResolveKeepsOrder(rest, enemies, t);
        var r := Resolve(rest, enemies, t).shots;
        assert (r + [s])[..|r + [s]| - 1] == r;
      case Some(j) =>
        var t' := Scored(t, s.kind, enemies[j].correctShot);
        ResolveKeepsOrder(rest, Splice(enemies, j), t');
        var r := Resolve(rest, Splice(enemies, j), t');
        assert SubseqOf(r.shots, rest);
        SubseqOfSplice(r.enemies, enemies, j);
    }
  }

  /** A shot that overlaps several enemies consumes only the highest-indexed one; the others stay live. */
  lemma SingleShotConsumesHighestHit(s: Shot, enemies: seq<Enemy>, t: Tally, j: nat)
    requires j < |enemies| && Hits(s, enemies[j])
    requires forall k :: j < k < |enemies| ==> !Hits(s, enemies[k])
    ensures Resolve([s], enemies, t) ==
      Resolution([], enemies[..j] + enemies[j + 1..], Scored(t, s.kind, enemies[j].correctShot))
  {
    assert LastHit(s, enemies) == Some(j);
    assert [s][..0] == [];
  }

  /** When no shot overlaps any enemy, the pass changes nothing. */
  lemma {:induction false} ResolveWithoutContact(shots: seq<Shot>, enemies: seq<Enemy>, t: Tally)
    requires forall i, k :: 0 <= i < |shots| && 0 <= k < |enemies| ==> !Hits(shots[i], enemies[k])
    ensures Resolve(shots, enemies, t) == Resolution(shots, enemies, t)
    decreases |shots|
  {
    if shots != [] {
      var s := shots[|shots| - 1];
      var rest := shots[..|shots| - 1];
      assert LastHit(s, enemies) == None;
      ResolveWithoutContact(rest, enemies, t);
      assert rest + [s] == shots;
    }
  }
}
