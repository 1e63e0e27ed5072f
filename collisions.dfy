/**
 * Collision and scoring: the bullet-enemy and rocket-enemy passes, the
 * kill bookkeeping (blast, score, level, banner) and the player-enemy test.
 */
module Collisions {
  import opened Entities

  /** What a kill by one kind of shot is worth and what blast it leaves. */
  datatype Weapon = Weapon(points: int, radius: int, life: int, rocket: bool)

  const BULLET_HIT: Weapon := Weapon(10, 20, 10, false)
  const ROCKET_HIT: Weapon := Weapon(20, 50, 25, true)

  /** The part of the game state a kill changes. */
  datatype Tally = Tally(enemies: seq<Enemy>, explosions: seq<Explosion>, banners: seq<Banner>,
                         score: int, level: int)

  /** The level a score earns: one more per thousand points, counting from 20. */
  function LevelFor(score: int): int
  {
    score / 1000 + 20
  }

  /** Dafny's division by a positive constant is floor division, so LevelFor is monotone. */
  lemma LevelForMonotone(a: int, b: int)
    requires a <= b
    ensures LevelFor(a) <= LevelFor(b)
  {
  }

  function Max(a: int, b: int): int
  {
    if a >= b then a else b
  }

  predicate LeftBy(x: Explosion, w: Weapon)
  {
    x.radius == w.radius && x.life == w.life && x.rocket == w.rocket
  }

  /**
   * Enemy j is destroyed by a shot of kind w: it leaves a blast, is spliced
   * out, and the score and possibly the level go up, with a banner when the
   * level rises.
   */
  function Kill(t: Tally, j: nat, w: Weapon): (u: Tally)
    requires j < |t.enemies|
    ensures |u.enemies| == |t.enemies| - 1
    ensures u.score == t.score + w.points
  {
    var score := t.score + w.points;
    var newLevel := LevelFor(score);
    Tally(t.enemies[..j] + t.enemies[j + 1..],
          t.explosions + [Blast(t.enemies[j], w.radius, w.life, w.rocket)],
          if newLevel > t.level then t.banners + [LevelUpBanner(newLevel)] else t.banners,
          score,
          if newLevel > t.level then newLevel else t.level)
  }

  /**
   * The rest of a kill: one blast of the weapon's kind at the end of the
   * explosions, the level raised to the one the new score earns if that is
   * higher, and a banner exactly when it rose.
   */
  lemma KillEffects(t: Tally, j: nat, w: Weapon)
    requires j < |t.enemies|
    ensures Kill(t, j, w).explosions == t.explosions + [Blast(t.enemies[j], w.radius, w.life, w.rocket)]
    ensures Kill(t, j, w).level >= t.level && Kill(t, j, w).level >= LevelFor(Kill(t, j, w).score)
    ensures Kill(t, j, w).level == t.level || Kill(t, j, w).level == LevelFor(Kill(t, j, w).score)
    ensures Kill(t, j, w).banners ==
              if Kill(t, j, w).level > t.level then t.banners + [LevelUpBanner(Kill(t, j, w).level)] else t.banners
  {
  }

  /**
   * A kill only removes enemy j: the enemies before it keep their places,
   * the ones after it move down by one, and every enemy left was there before.
   */
  lemma KillRemovesOnly(t: Tally, j: nat, w: Weapon)
    requires j < |t.enemies|
    ensures forall k :: 0 <= k < j ==> Kill(t, j, w).enemies[k] == t.enemies[k]
    ensures forall k :: j <= k < |Kill(t, j, w).enemies| ==> Kill(t, j, w).enemies[k] == t.enemies[k + 1]
    ensures forall k :: 0 <= k < |Kill(t, j, w).enemies| ==> Kill(t, j, w).enemies[k] in t.enemies
  {
    var u := Kill(t, j, w);
    forall k | 0 <= k < |u.enemies|
      ensures u.enemies[k] in t.enemies
      ensures k < j ==> u.enemies[k] == t.enemies[k]
      ensures j <= k ==> u.enemies[k] == t.enemies[k + 1]
    {
      if k < j {
        assert u.enemies[k] == t.enemies[k];
      } else {
        assert u.enemies[k] == t.enemies[k + 1];
      }
    }
  }

  /**
   * The enemy a shot hits: the inner loop runs from the last enemy down and
   * stops at the first overlap, so it is the overlapping enemy of highest
   * index.
   */
  function LastOverlap(b: Box, es: seq<Enemy>): (r: Option<nat>)
    ensures r.Some? ==> r.value < |es|
    decreases |es|
  {
    if es == [] then None
    else if Overlap(b, EnemyBox(es[|es| - 1])) then Some(|es| - 1)
    else LastOverlap(b, es[..|es| - 1])
  }

  /**
   * The enemy found overlaps the shot and no enemy after it does; when none
   * is found, no enemy overlaps the shot.
   */
  lemma {:induction false} LastOverlapIsLast(b: Box, es: seq<Enemy>)
    ensures LastOverlap(b, es).Some? ==> Overlap(b, EnemyBox(es[LastOverlap(b, es).value]))
    ensures LastOverlap(b, es).Some? ==>
              forall j :: LastOverlap(b, es).value < j < |es| ==> !Overlap(b, EnemyBox(es[j]))
    ensures LastOverlap(b, es).None? ==> forall j :: 0 <= j < |es| ==> !Overlap(b, EnemyBox(es[j]))
    decreases |es|
  {
    if es != [] && !Overlap(b, EnemyBox(es[|es| - 1])) {
      var front := es[..|es| - 1];
      LastOverlapIsLast(b, front);
      assert forall j :: 0 <= j < |front| ==> front[j] == es[j];
    }
  }

  /** The inner loop of a shot-enemy pass: the last enemy overlapping b, if any. */
  method FindHit(b: Box, es: seq<Enemy>) returns (hit: Option<nat>)
    ensures hit == LastOverlap(b, es)
  {
    hit := None;
    assert es[..|es|] == es;
    var j := |es| - 1;
    while j >= 0
      invariant -1 <= j < |es|
      invariant LastOverlap(b, es) == LastOverlap(b, es[..j + 1])
    {
      assert es[..j + 1][..j] == es[..j];
      if Overlap(b, EnemyBox(es[j])) {
        hit := Some(j);
        break;
      }
      j := j - 1;
    }
  }

  /** The shots still in flight after a pass, and the tally they left. */
  datatype Volley<T> = Volley(shots: seq<T>, tally: Tally)

  /**
   * One shot-enemy pass, shots visited from the last down: a shot that
   * overlaps an enemy destroys the last such enemy and is itself removed,
   * so it takes at most one enemy with it.
   */
  function ShotPass<T>(shots: seq<T>, boxOf: T -> Box, w: Weapon, t: Tally): (v: Volley<T>)
    ensures |v.shots| <= |shots|
    decreases |shots|
  {
    if shots == [] then Volley([], t)
    else
      var s := shots[|shots| - 1];
      var front := shots[..|shots| - 1];
      match LastOverlap(boxOf(s), t.enemies)
      case None =>
        var v := ShotPass(front, boxOf, w, t);
        v.(shots := v.shots + [s])
      case Some(j) => ShotPass(front, boxOf, w, Kill(t, j, w))
  }

  /** A shot pass over a prefix, rejoined with the shots above it that missed. */
  function Rejoined<T>(v: Volley<T>, done: seq<T>): Volley<T>
  {
    Volley(v.shots + done, v.tally)
  }

  /** One step of the backward walk of a shot pass. */
  lemma ShotPassUnfold<T>(shots: seq<T>, i: nat, done: seq<T>, boxOf: T -> Box, w: Weapon, t: Tally)
    requires i < |shots|
    ensures LastOverlap(boxOf(shots[i]), t.enemies).None? ==>
              Rejoined(ShotPass(shots[..i + 1], boxOf, w, t), done) ==
              Rejoined(ShotPass(shots[..i], boxOf, w, t), [shots[i]] + done)
    ensures LastOverlap(boxOf(shots[i]), t.enemies).Some? ==>
              Rejoined(ShotPass(shots[..i + 1], boxOf, w, t), done) ==
              Rejoined(ShotPass(shots[..i], boxOf, w,
                                Kill(t, LastOverlap(boxOf(shots[i]), t.enemies).value, w)), done)
  {
    assert shots[..i + 1][..i] == shots[..i];
    if LastOverlap(boxOf(shots[i]), t.enemies).None? {
      var v := ShotPass(shots[..i], boxOf, w, t);
      assert v.shots + [shots[i]] + done == v.shots + ([shots[i]] + done);
    }
  }

  /**
   * Every kill removes exactly one shot and one enemy, adds exactly the
   * weapon's points and pushes exactly one blast.
   */
  lemma {:induction false} ShotPassCounts<T>(shots: seq<T>, boxOf: T -> Box, w: Weapon, t: Tally)
    ensures ShotPass(shots, boxOf, w, t).tally.score ==
              t.score + w.points * (|shots| - |ShotPass(shots, boxOf, w, t).shots|)
    ensures |ShotPass(shots, boxOf, w, t).tally.enemies| ==
              |t.enemies| - (|shots| - |ShotPass(shots, boxOf, w, t).shots|)
    ensures |ShotPass(shots, boxOf, w, t).tally.explosions| ==
              |t.explosions| + (|shots| - |ShotPass(shots, boxOf, w, t).shots|)
    decreases |shots|
  {
    if shots != [] {
      var s := shots[|shots| - 1];
      var front := shots[..|shots| - 1];
      match LastOverlap(boxOf(s), t.enemies)
      case None =>
        ShotPassCounts(front, boxOf, w, t);
      case Some(j) =>
        var t1 := Kill(t, j, w);
        KillEffects(t, j, w);
        ShotPassCounts(front, boxOf, w, t1);
        var v := ShotPass(front, boxOf, w, t1);
        assert ShotPass(shots, boxOf, w, t) == v;
        var kills := |front| - |v.shots|;
        assert |shots| - |v.shots| == kills + 1;
        MoreKills(w.points, kills);
    }
  }

  /** One more kill is worth w.points more. */
  lemma MoreKills(points: int, kills: int)
    ensures points * (kills + 1) == points * kills + points
  {
  }

  /**
   * The blasts already in the game are kept, and every blast a pass adds is
   * of the weapon's kind.
   */
  lemma {:induction false} ShotPassBlasts<T>(shots: seq<T>, boxOf: T -> Box, w: Weapon, t: Tally)
    ensures |ShotPass(shots, boxOf, w, t).tally.explosions| >= |t.explosions|
    ensures ShotPass(shots, boxOf, w, t).tally.explosions[..|t.explosions|] == t.explosions
    ensures forall k :: |t.explosions| <= k < |ShotPass(shots, boxOf, w, t).tally.explosions| ==>
              LeftBy(ShotPass(shots, boxOf, w, t).tally.explosions[k], w)
    decreases |shots|
  {
    if shots != [] {
      var s := shots[|shots| - 1];
      var front := shots[..|shots| - 1];
      match LastOverlap(boxOf(s), t.enemies)
      case None =>
        ShotPassBlasts(front, boxOf, w, t);
      case Some(j) =>
        var t1 := Kill(t, j, w);
        KillEffects(t, j, w);
        ShotPassBlasts(front, boxOf, w, t1);
        var v := ShotPass(front, boxOf, w, t1);
        assert ShotPass(shots, boxOf, w, t) == v;
        var xs, n := v.tally.explosions, |t.explosions|;
        assert |t1.explosions| == n + 1;
        assert xs[..n + 1] == t1.explosions;
        assert xs[..n] == xs[..n + 1][..n] == t.explosions;
        forall k | n <= k < |xs|
          ensures LeftBy(xs[k], w)
        {
          if k == n {
            assert xs[n] == xs[..n + 1][n] == Blast(t.enemies[j], w.radius, w.life, w.rocket);
          }
        }
    }
  }

  /** A pass only removes: every shot and enemy left was there before. */
  lemma {:induction false} ShotPassRemovesOnly<T>(shots: seq<T>, boxOf: T -> Box, w: Weapon, t: Tally)
    ensures forall k :: 0 <= k < |ShotPass(shots, boxOf, w, t).shots| ==>
              ShotPass(shots, boxOf, w, t).shots[k] in shots
    ensures forall k :: 0 <= k < |ShotPass(shots, boxOf, w, t).tally.enemies| ==>
              ShotPass(shots, boxOf, w, t).tally.enemies[k] in t.enemies
    decreases |shots|
  {
    if shots != [] {
      var s := shots[|shots| - 1];
      var front := shots[..|shots| - 1];
      assert forall y :: y in front ==> y in shots;
      match LastOverlap(boxOf(s), t.enemies)
      case None =>
        ShotPassRemovesOnly(front, boxOf, w, t);
      case Some(j) =>
        var t1 := Kill(t, j, w);
        KillEffects(t, j, w);
        KillRemovesOnly(t, j, w);
        ShotPassRemovesOnly(front, boxOf, w, t1);
        assert ShotPass(shots, boxOf, w, t) == ShotPass(front, boxOf, w, t1);
    }
  }

  /**
   * The indices, ascending, of the shots a pass leaves in flight: a shot
   * stays exactly when it meets no enemy.
   */
  function ShotsKept<T>(shots: seq<T>, boxOf: T -> Box, w: Weapon, t: Tally): seq<nat>
    decreases |shots|
  {
    if shots == [] then []
    else
      var front := shots[..|shots| - 1];
      match LastOverlap(boxOf(shots[|shots| - 1]), t.enemies)
      case None => ShotsKept(front, boxOf, w, t) + [|shots| - 1]
      case Some(j) => ShotsKept(front, boxOf, w, Kill(t, j, w))
  }

  /**
   * The tally shot i meets is what the shots after it, visited first, left;
   * dropping the last shot from the list changes it only by that shot's own
   * outcome.
   */
  lemma ShotPassSuffix<T>(shots: seq<T>, i: nat, boxOf: T -> Box, w: Weapon, t: Tally)
    requires i + 1 < |shots|
    ensures LastOverlap(boxOf(shots[|shots| - 1]), t.enemies).None? ==>
              ShotPass(shots[i + 1..], boxOf, w, t).tally == ShotPass(shots[..|shots| - 1][i + 1..], boxOf, w, t).tally
    ensures LastOverlap(boxOf(shots[|shots| - 1]), t.enemies).Some? ==>
              ShotPass(shots[i + 1..], boxOf, w, t).tally ==
              ShotPass(shots[..|shots| - 1][i + 1..], boxOf, w,
                       Kill(t, LastOverlap(boxOf(shots[|shots| - 1]), t.enemies).value, w)).tally
  {
    var x := shots[i + 1..];
    assert x[..|x| - 1] == shots[..|shots| - 1][i + 1..];
    assert x[|x| - 1] == shots[|shots| - 1];
  }

  /** The shots a pass leaves are those at the kept indices, in their original order. */
  lemma {:induction false} ShotsKeptInOrder<T>(shots: seq<T>, boxOf: T -> Box, w: Weapon, t: Tally)
    ensures |ShotPass(shots, boxOf, w, t).shots| == |ShotsKept(shots, boxOf, w, t)|
    ensures forall k :: 0 <= k < |ShotsKept(shots, boxOf, w, t)| ==>
              ShotsKept(shots, boxOf, w, t)[k] < |shots| &&
              ShotPass(shots, boxOf, w, t).shots[k] == shots[ShotsKept(shots, boxOf, w, t)[k]]
    ensures forall k, l :: 0 <= k < l < |ShotsKept(shots, boxOf, w, t)| ==>
              ShotsKept(shots, boxOf, w, t)[k] < ShotsKept(shots, boxOf, w, t)[l]
    decreases |shots|
  {
    if shots != [] {
      var n := |shots|;
      var front := shots[..n - 1];
      match LastOverlap(boxOf(shots[n - 1]), t.enemies)
      case None =>
        ShotsKeptInOrder(front, boxOf, w, t);
        var idx' := ShotsKept(front, boxOf, w, t);
        assert ShotsKept(shots, boxOf, w, t) == idx' + [n - 1];
        assert forall k :: 0 <= k < |idx'| ==> front[idx'[k]] == shots[idx'[k]];
      case Some(j) =>
        ShotsKeptInOrder(front, boxOf, w, Kill(t, j, w));
        var idx' := ShotsKept(front, boxOf, w, Kill(t, j, w));
        assert ShotsKept(shots, boxOf, w, t) == idx';
        assert forall k :: 0 <= k < |idx'| ==> front[idx'[k]] == shots[idx'[k]];
    }
  }

  /**
   * A pass keeps exactly the shots that meet no enemy among those the shots
   * after them left standing.
   */
  lemma {:induction false} ShotPassKeepsExactly<T>(shots: seq<T>, boxOf: T -> Box, w: Weapon, t: Tally)
    ensures forall i :: 0 <= i < |shots| ==>
              (i in ShotsKept(shots, boxOf, w, t) <==>
               LastOverlap(boxOf(shots[i]), ShotPass(shots[i + 1..], boxOf, w, t).tally.enemies).None?)
    decreases |shots|
  {
    if shots != [] {
      var n := |shots|;
      var front := shots[..n - 1];
      assert shots[n..] == [];
      match LastOverlap(boxOf(shots[n - 1]), t.enemies)
      case None =>
        ShotPassKeepsExactly(front, boxOf, w, t);
        ShotsKeptInOrder(front, boxOf, w, t);
        assert n - 1 !in ShotsKept(front, boxOf, w, t);
        KeptStep(shots, boxOf, w, t, t);
      case Some(j) =>
        ShotPassKeepsExactly(front, boxOf, w, Kill(t, j, w));
        ShotsKeptInOrder(front, boxOf, w, Kill(t, j, w));
        assert n - 1 !in ShotsKept(front, boxOf, w, Kill(t, j, w));
        KeptStep(shots, boxOf, w, t, Kill(t, j, w));
    }
  }

  /** The step of ShotPassKeepsExactly for the shots below the last, t1 being what the last shot left. */
  lemma KeptStep<T>(shots: seq<T>, boxOf: T -> Box, w: Weapon, t: Tally, t1: Tally)
    requires shots != []
    requires t1 == match LastOverlap(boxOf(shots[|shots| - 1]), t.enemies)
                   case None => t
                   case Some(j) => Kill(t, j, w)
    requires |shots| - 1 !in ShotsKept(shots[..|shots| - 1], boxOf, w, t1)
    requires var front := shots[..|shots| - 1];
             forall i :: 0 <= i < |front| ==>
               (i in ShotsKept(front, boxOf, w, t1) <==>
                LastOverlap(boxOf(front[i]), ShotPass(front[i + 1..], boxOf, w, t1).tally.enemies).None?)
    ensures forall i :: 0 <= i < |shots| ==>
              (i in ShotsKept(shots, boxOf, w, t) <==>
               LastOverlap(boxOf(shots[i]), ShotPass(shots[i + 1..], boxOf, w, t).tally.enemies).None?)
  {
    var n := |shots|;
    var front := shots[..n - 1];
    var idx := ShotsKept(shots, boxOf, w, t);
    var idx' := ShotsKept(front, boxOf, w, t1);
    assert shots[n..] == [];
    assert idx == idx' + (if LastOverlap(boxOf(shots[n - 1]), t.enemies).None? then [n - 1] else []);
    forall i | 0 <= i < n
      ensures i in idx <==> LastOverlap(boxOf(shots[i]), ShotPass(shots[i + 1..], boxOf, w, t).tally.enemies).None?
    {
      if i < n - 1 {
        ShotPassSuffix(shots, i, boxOf, w, t);
        assert shots[i] == front[i];
      }
    }
  }

  /**
   * Where the enemies a pass leaves come from, given where the enemies of t
   * came from (m): each kill splices its enemy's origin out of the list.
   */
  function EnemyOrigins<T>(shots: seq<T>, boxOf: T -> Box, w: Weapon, t: Tally, m: seq<nat>): (r: seq<nat>)
    requires |m| == |t.enemies|
    ensures |r| == |ShotPass(shots, boxOf, w, t).tally.enemies|
    decreases |shots|
  {
    if shots == [] then m
    else
      var front := shots[..|shots| - 1];
      match LastOverlap(boxOf(shots[|shots| - 1]), t.enemies)
      case None => EnemyOrigins(front, boxOf, w, t, m)
      case Some(j) => EnemyOrigins(front, boxOf, w, Kill(t, j, w), m[..j] + m[j + 1..])
  }

  /** The indices, ascending, of the enemies of t that a pass leaves standing. */
  function EnemiesKept<T>(shots: seq<T>, boxOf: T -> Box, w: Weapon, t: Tally): seq<nat>
  {
    EnemyOrigins(shots, boxOf, w, t, seq(|t.enemies|, k requires 0 <= k < |t.enemies| => k as nat))
  }

  /** The splices of a pass keep the origins of the enemies left ascending and correct. */
  lemma {:induction false} OriginsSpliced<T>(shots: seq<T>, boxOf: T -> Box, w: Weapon, t: Tally,
                                             m: seq<nat>, es: seq<Enemy>)
    requires |m| == |t.enemies|
    requires forall k :: 0 <= k < |m| ==> m[k] < |es| && t.enemies[k] == es[m[k]]
    requires forall k, l :: 0 <= k < l < |m| ==> m[k] < m[l]
    ensures forall k :: 0 <= k < |EnemyOrigins(shots, boxOf, w, t, m)| ==>
              EnemyOrigins(shots, boxOf, w, t, m)[k] < |es| &&
              ShotPass(shots, boxOf, w, t).tally.enemies[k] == es[EnemyOrigins(shots, boxOf, w, t, m)[k]]
    ensures forall k, l :: 0 <= k < l < |EnemyOrigins(shots, boxOf, w, t, m)| ==>
              EnemyOrigins(shots, boxOf, w, t, m)[k] < EnemyOrigins(shots, boxOf, w, t, m)[l]
    decreases |shots|
  {
    if shots != [] {
      var front := shots[..|shots| - 1];
      match LastOverlap(boxOf(shots[|shots| - 1]), t.enemies)
      case None =>
        OriginsSpliced(front, boxOf, w, t, m, es);
      case Some(j) =>
        var t1 := Kill(t, j, w);
        assert t1.enemies == t.enemies[..j] + t.enemies[j + 1..];
        var m1 := m[..j] + m[j + 1..];
        OriginSplice(m, t.enemies, es, j);
        OriginsSpliced(front, boxOf, w, t1, m1, es);
    }
  }

  /** Splicing index j out of both an origin list and the list it describes keeps it correct and ascending. */
  lemma OriginSplice(m: seq<nat>, cur: seq<Enemy>, es: seq<Enemy>, j: nat)
    requires |m| == |cur| && j < |m|
    requires forall k :: 0 <= k < |m| ==> m[k] < |es| && cur[k] == es[m[k]]
    requires forall k, l :: 0 <= k < l < |m| ==> m[k] < m[l]
    ensures var m1, cur1 := m[..j] + m[j + 1..], cur[..j] + cur[j + 1..];
            && (forall k :: 0 <= k < |m1| ==> m1[k] < |es| && cur1[k] == es[m1[k]])
            && (forall k, l :: 0 <= k < l < |m1| ==> m1[k] < m1[l])
  {
    var m1, cur1 := m[..j] + m[j + 1..], cur[..j] + cur[j + 1..];
    forall k | 0 <= k < |m1|
      ensures m1[k] < |es| && cur1[k] == es[m1[k]]
    {
      if k < j {
        assert m1[k] == m[k] && cur1[k] == cur[k];
      } else {
        assert m1[k] == m[k + 1] && cur1[k] == cur[k + 1];
      }
    }
    forall k, l | 0 <= k < l < |m1|
      ensures m1[k] < m1[l]
    {
      var k', l' := if k < j then k else k + 1, if l < j then l else l + 1;
      assert m1[k] == m[k'] && m1[l] == m[l'];
    }
  }

  /**
   * A pass only splices enemies out: the enemies left are those of t at
   * ascending indices, one fewer for every shot that hit.
   */
  lemma ShotPassSplicesEnemies<T>(shots: seq<T>, boxOf: T -> Box, w: Weapon, t: Tally)
    ensures |EnemiesKept(shots, boxOf, w, t)| == |ShotPass(shots, boxOf, w, t).tally.enemies|
    ensures |t.enemies| - |EnemiesKept(shots, boxOf, w, t)| == |shots| - |ShotPass(shots, boxOf, w, t).shots|
    ensures forall k :: 0 <= k < |EnemiesKept(shots, boxOf, w, t)| ==>
              EnemiesKept(shots, boxOf, w, t)[k] < |t.enemies| &&
              ShotPass(shots, boxOf, w, t).tally.enemies[k] == t.enemies[EnemiesKept(shots, boxOf, w, t)[k]]
    ensures forall k, l :: 0 <= k < l < |EnemiesKept(shots, boxOf, w, t)| ==>
              EnemiesKept(shots, boxOf, w, t)[k] < EnemiesKept(shots, boxOf, w, t)[l]
  {
    ShotPassCounts(shots, boxOf, w, t);
    OriginsSpliced(shots, boxOf, w, t, seq(|t.enemies|, k requires 0 <= k < |t.enemies| => k as nat), t.enemies);
  }

  /** A pass only removes shots, so a property every shot had still holds of every shot left. */
  lemma {:induction false} ShotPassKeeps<T>(shots: seq<T>, boxOf: T -> Box, w: Weapon, t: Tally, p: T -> bool)
    requires forall k :: 0 <= k < |shots| ==> p(shots[k])
    ensures forall k :: 0 <= k < |ShotPass(shots, boxOf, w, t).shots| ==> p(ShotPass(shots, boxOf, w, t).shots[k])
    decreases |shots|
  {
    if shots != [] {
      var s := shots[|shots| - 1];
      var front := shots[..|shots| - 1];
      match LastOverlap(boxOf(s), t.enemies)
      case None =>
        ShotPassKeeps(front, boxOf, w, t, p);
      case Some(j) =>
        ShotPassKeeps(front, boxOf, w, Kill(t, j, w), p);
    }
  }

  /**
   * The level after a pass with kills is the larger of the old level and
   * the level the final score earns; a pass without kills changes nothing.
   */
  lemma {:induction false} ShotPassLevel<T>(shots: seq<T>, boxOf: T -> Box, w: Weapon, t: Tally)
    requires w.points > 0
    ensures ShotPass(shots, boxOf, w, t).tally.score >= t.score
    ensures |ShotPass(shots, boxOf, w, t).shots| == |shots| ==> ShotPass(shots, boxOf, w, t).tally == t
    ensures |ShotPass(shots, boxOf, w, t).shots| < |shots| ==>
              ShotPass(shots, boxOf, w, t).tally.level ==
                Max(t.level, LevelFor(ShotPass(shots, boxOf, w, t).tally.score))
    decreases |shots|
  {
    if shots != [] {
      var s := shots[|shots| - 1];
      var front := shots[..|shots| - 1];
      match LastOverlap(boxOf(s), t.enemies)
      case None =>
        ShotPassLevel(front, boxOf, w, t);
        var v := ShotPass(front, boxOf, w, t);
        assert ShotPass(shots, boxOf, w, t) == v.(shots := v.shots + [s]);
      case Some(j) =>
        var t1 := Kill(t, j, w);
        KillEffects(t, j, w);
        ShotPassLevel(front, boxOf, w, t1);
        var v := ShotPass(front, boxOf, w, t1);
        assert ShotPass(shots, boxOf, w, t) == v;
        LevelForMonotone(t1.score, v.tally.score);
        if |v.shots| < |front| {
          assert v.tally.level == Max(t1.level, LevelFor(v.tally.score));
        } else {
          assert v.tally == t1;
        }
    }
  }

  /** Banners are only appended by a pass: the ones already showing are kept, in order, at the front. */
  lemma {:induction false} ShotPassKeepsBanners<T>(shots: seq<T>, boxOf: T -> Box, w: Weapon, t: Tally)
    ensures |ShotPass(shots, boxOf, w, t).tally.banners| >= |t.banners|
    ensures ShotPass(shots, boxOf, w, t).tally.banners[..|t.banners|] == t.banners
    decreases |shots|
  {
    if shots != [] {
      var s := shots[|shots| - 1];
      var front := shots[..|shots| - 1];
      match LastOverlap(boxOf(s), t.enemies)
      case None =>
        ShotPassKeepsBanners(front, boxOf, w, t);
        assert ShotPass(shots, boxOf, w, t).tally == ShotPass(front, boxOf, w, t).tally;
      case Some(j) =>
        var t1 := Kill(t, j, w);
        KillEffects(t, j, w);
        ShotPassKeepsBanners(front, boxOf, w, t1);
        var v := ShotPass(front, boxOf, w, t1);
        assert ShotPass(shots, boxOf, w, t) == v;
        assert v.tally.banners[..|t1.banners|][..|t.banners|] == t.banners;
    }
  }

  /** Every banner a pass appends has a 60-frame life. */
  lemma {:induction false} ShotPassBanners<T>(shots: seq<T>, boxOf: T -> Box, w: Weapon, t: Tally)
    ensures forall k :: |t.banners| <= k < |ShotPass(shots, boxOf, w, t).tally.banners| ==>
              ShotPass(shots, boxOf, w, t).tally.banners[k].life == BANNER_LIFE
    decreases |shots|
  {
    ShotPassKeepsBanners(shots, boxOf, w, t);
    if shots != [] {
      var s := shots[|shots| - 1];
      var front := shots[..|shots| - 1];
      match LastOverlap(boxOf(s), t.enemies)
      case None =>
        ShotPassBanners(front, boxOf, w, t);
        assert ShotPass(shots, boxOf, w, t).tally == ShotPass(front, boxOf, w, t).tally;
      case Some(j) =>
        var t1 := Kill(t, j, w);
        KillEffects(t, j, w);
        ShotPassBanners(front, boxOf, w, t1);
        ShotPassKeepsBanners(front, boxOf, w, t1);
        var v := ShotPass(front, boxOf, w, t1);
        assert ShotPass(shots, boxOf, w, t) == v;
        var bs, n := v.tally.banners, |t1.banners|;
        forall k | |t.banners| <= k < |bs|
          ensures bs[k].life == BANNER_LIFE
        {
          if k < n {
            assert bs[k] == bs[..n][k] == t1.banners[k];
          }
        }
    }
  }

  /**
   * The level never drops, and a banner appears exactly when it rose, the
   * last one showing the new level.
   */
  lemma {:induction false} ShotPassLevelUp<T>(shots: seq<T>, boxOf: T -> Box, w: Weapon, t: Tally)
    ensures ShotPass(shots, boxOf, w, t).tally.level >= t.level
    ensures ShotPass(shots, boxOf, w, t).tally.level > t.level <==>
              |ShotPass(shots, boxOf, w, t).tally.banners| > |t.banners|
    ensures ShotPass(shots, boxOf, w, t).tally.level > t.level ==>
              ShotPass(shots, boxOf, w, t).tally.banners[|ShotPass(shots, boxOf, w, t).tally.banners| - 1] ==
                LevelUpBanner(ShotPass(shots, boxOf, w, t).tally.level)
    decreases |shots|
  {
    if shots != [] {
      var s := shots[|shots| - 1];
      var front := shots[..|shots| - 1];
      match LastOverlap(boxOf(s), t.enemies)
      case None =>
        ShotPassLevelUp(front, boxOf, w, t);
        var v := ShotPass(front, boxOf, w, t);
        assert ShotPass(shots, boxOf, w, t).tally == v.tally;
      case Some(j) =>
        var t1 := Kill(t, j, w);
        KillEffects(t, j, w);
        ShotPassLevelUp(front, boxOf, w, t1);
        ShotPassKeepsBanners(front, boxOf, w, t1);
        var v := ShotPass(front, boxOf, w, t1);
        assert ShotPass(shots, boxOf, w, t) == v;
        LevelUpStep(t, t1, v.tally);
    }
  }

  /** The banner bookkeeping of one kill t to t1, followed by the rest of a pass t1 to v. */
  lemma LevelUpStep(t: Tally, t1: Tally, v: Tally)
    requires t1.level >= t.level
    requires t1.banners == if t1.level > t.level then t.banners + [LevelUpBanner(t1.level)] else t.banners
    requires v.level >= t1.level
    requires v.level > t1.level <==> |v.banners| > |t1.banners|
    requires v.level > t1.level ==> v.banners[|v.banners| - 1] == LevelUpBanner(v.level)
    requires |v.banners| >= |t1.banners| && v.banners[..|t1.banners|] == t1.banners
    ensures v.level >= t.level
    ensures v.level > t.level <==> |v.banners| > |t.banners|
    ensures v.level > t.level ==> v.banners[|v.banners| - 1] == LevelUpBanner(v.level)
  {
    if v.level == t1.level {
      assert v.banners == v.banners[..|t1.banners|] == t1.banners;
    }
  }

  /**
   * The bullet pass followed by the rocket pass over what it left: ten
   * points per bullet and twenty per rocket that hit, shots only removed
   * (so those left are still on the field),
   * the level never lowered and, after any kill, the larger of the old
   * level and the one the final score earns; without a kill nothing changes.
   */
  lemma TwoVolleys(bullets: seq<Bullet>, rockets: seq<Rocket>, t: Tally)
    ensures var b := ShotPass(bullets, BulletBox, BULLET_HIT, t);
            var r := ShotPass(rockets, RocketBox, ROCKET_HIT, b.tally);
            && r.tally.score == t.score + 10 * (|bullets| - |b.shots|) + 20 * (|rockets| - |r.shots|)
            && r.tally.score >= t.score
            && r.tally.level >= t.level
            && (r.tally.score > t.score ==> r.tally.level == Max(t.level, LevelFor(r.tally.score)))
            && (r.tally.score == t.score ==> r.tally == t)
            && ((forall k :: 0 <= k < |bullets| ==> BulletOnScreen(bullets[k])) ==>
                forall k :: 0 <= k < |b.shots| ==> BulletOnScreen(b.shots[k]))
            && ((forall k :: 0 <= k < |rockets| ==> RocketOnScreen(rockets[k])) ==>
                forall k :: 0 <= k < |r.shots| ==> RocketOnScreen(r.shots[k]))
  {
    var b := ShotPass(bullets, BulletBox, BULLET_HIT, t);
    ShotPassCounts(bullets, BulletBox, BULLET_HIT, t);
    ShotPassLevel(bullets, BulletBox, BULLET_HIT, t);
    if forall k :: 0 <= k < |bullets| ==> BulletOnScreen(bullets[k]) {
      ShotPassKeeps(bullets, BulletBox, BULLET_HIT, t, BulletOnScreen);
    }
    var r := ShotPass(rockets, RocketBox, ROCKET_HIT, b.tally);
    ShotPassCounts(rockets, RocketBox, ROCKET_HIT, b.tally);
    ShotPassLevel(rockets, RocketBox, ROCKET_HIT, b.tally);
    if forall k :: 0 <= k < |rockets| ==> RocketOnScreen(rockets[k]) {
      ShotPassKeeps(rockets, RocketBox, ROCKET_HIT, b.tally, RocketOnScreen);
    }
    LevelForMonotone(b.tally.score, r.tally.score);
  }

  /** The blasts of the enemies the ship rammed, in the order it rammed them. */
  function Wreckage(rammed: seq<Enemy>): seq<Explosion>
  {
    seq(|rammed|, k requires 0 <= k < |rammed| => CrashBlast(rammed[k]))
  }

  /** One more ram, one more blast at the end of the explosion list. */
  lemma WreckageGrows(before: seq<Explosion>, rammed: seq<Enemy>, e: Enemy)
    ensures before + Wreckage(rammed) + [CrashBlast(e)] == before + Wreckage(rammed + [e])
  {
    assert Wreckage(rammed + [e]) == Wreckage(rammed) + [CrashBlast(e)];
  }
}
