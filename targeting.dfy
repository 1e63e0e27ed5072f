/**
 * Rocket guidance: choosing the nearest enemy and stepping toward where it
 * will be two of its own speed units further down.
 *
 * Distances are compared squared: the square root the game takes is
 * monotone, so it picks the same enemy. The normalised step
 * (dx / distance * speed, dy / distance * speed) is trigonometry and is
 * taken as a given function `steer(dx, dy, speed)`.
 */
module Targeting {
  import opened Entities

  function SqDist(x: real, y: real, e: Enemy): real
  {
    (x - e.x) * (x - e.x) + (y - e.y) * (y - e.y)
  }

  /**
   * The index the game's forward search settles on: the running minimum
   * starts at infinity and is replaced only by a strictly smaller distance.
   */
  function Nearest(es: seq<Enemy>, x: real, y: real): (r: Option<nat>)
    ensures r.Some? <==> |es| > 0
    ensures r.Some? ==> r.value < |es|
    decreases |es|
  {
    if es == [] then None
    else
      var k := Nearest(es[..|es| - 1], x, y);
      if k.None? || SqDist(x, y, es[|es| - 1]) < SqDist(x, y, es[k.value]) then Some(|es| - 1)
      else k
  }

  /**
   * The chosen enemy is at minimal distance, and it is the first such enemy
   * in array order: every enemy before it is strictly farther.
   */
  lemma {:induction false} NearestIsFirstMinimum(es: seq<Enemy>, x: real, y: real)
    requires |es| > 0
    ensures forall j :: 0 <= j < |es| ==>
              SqDist(x, y, es[Nearest(es, x, y).value]) <= SqDist(x, y, es[j])
    ensures forall j :: 0 <= j < Nearest(es, x, y).value ==>
              SqDist(x, y, es[j]) > SqDist(x, y, es[Nearest(es, x, y).value])
    decreases |es|
  {
    var front := es[..|es| - 1];
    if front != [] {
      NearestIsFirstMinimum(front, x, y);
      forall j | 0 <= j < |front| ensures es[j] == front[j] { }
    }
  }

  /** The search loop of the rocket update, over the enemies as they stand. */
  method FindNearest(es: seq<Enemy>, x: real, y: real) returns (target: Option<nat>)
    ensures target == Nearest(es, x, y)
    ensures target.Some? <==> |es| > 0
    ensures target.Some? ==> target.value < |es|
    ensures target.Some? ==>
              forall j :: 0 <= j < |es| ==> SqDist(x, y, es[target.value]) <= SqDist(x, y, es[j])
    ensures target.Some? ==>
              forall j :: 0 <= j < target.value ==> SqDist(x, y, es[j]) > SqDist(x, y, es[target.value])
  {
    target := None;
    var minDistance: real := 0.0;  // meaningful once target is set; +infinity before
    var j := 0;
    while j < |es|
      invariant 0 <= j <= |es|
      invariant target == Nearest(es[..j], x, y)
      invariant target.Some? ==> target.value < j && minDistance == SqDist(x, y, es[target.value])
    {
      assert es[..j + 1][..j] == es[..j];
      var distance := SqDist(x, y, es[j]);
      if target.None? || distance < minDistance {
        minDistance := distance;
        target := Some(j);
      }
      j := j + 1;
    }
    assert es[..j] == es;
    if target.Some? {
      NearestIsFirstMinimum(es, x, y);
    }
  }

  /** The nearest enemy itself, when there is one. */
  function NearestTarget(es: seq<Enemy>, x: real, y: real): Option<Enemy>
  {
    match Nearest(es, x, y)
    case None => None
    case Some(k) => Some(es[k])
  }

  function StraightUp(r: Rocket): Rocket
  {
    r.(y := r.y - r.speed, angle := Up)
  }

  /**
   * One frame of a rocket that has a target in view: aim at the target's
   * position two of its speed units lower. When the aim point coincides
   * with the rocket, it neither moves nor turns.
   */
  function Home(r: Rocket, t: Enemy, steer: (real, real, real) -> Vec): Rocket
  {
    var dx := t.x - r.x;
    var dy := (t.y + t.speed * 2.0) - r.y;
    if dx != 0.0 || dy != 0.0 then
      var v := steer(dx, dy, r.speed);
      r.(angle := Toward(dx, dy), x := r.x + v.x, y := r.y + v.y)
    else r
  }

  /** One frame of a rocket given the target its search found, if any. */
  function Guide(r: Rocket, target: Option<Enemy>, steer: (real, real, real) -> Vec): Rocket
  {
    match target
    case Some(t) => Home(r, t, steer)
    case None => StraightUp(r)
  }

  /** One frame of rocket motion against the current enemies. */
  function MoveRocket(r: Rocket, es: seq<Enemy>, steer: (real, real, real) -> Vec): Rocket
  {
    Guide(r, if r.homing then NearestTarget(es, r.x, r.y) else None, steer)
  }

  /** MoveRocket as a step function over rockets, for Sweep. */
  function Steering(es: seq<Enemy>, steer: (real, real, real) -> Vec): Rocket -> Rocket
  {
    r => MoveRocket(r, es, steer)
  }
}
