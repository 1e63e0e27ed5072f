/**
 * The two passes over the enemies that cost lives: the falling pass, which
 * moves every enemy down and loses a life per enemy past the bottom edge,
 * and the ramming pass, which loses a life per enemy overlapping the ship.
 * Each walks the enemies from the last down, splices out the ones that cost
 * a life, and stops at once when lives fall to zero or below, leaving the
 * unvisited front as it was.
 */
module Losses {
  import opened Entities
  import opened Sweeps

  /** Which of the two passes. */
  datatype Pass = Falling | Ramming(ship: Player)

  /** What the pass does to an enemy before testing it. */
  function Moved(p: Pass, e: Enemy): Enemy
  {
    match p
    case Falling => Fall(e)
    case Ramming(_) => e
  }

  /** Whether the enemy, once moved, costs a life. */
  predicate Costs(p: Pass, e: Enemy)
  {
    match p
    case Falling => PastBottom(e)
    case Ramming(ship) => Overlap(PlayerBox(ship), EnemyBox(e))
  }

  /**
   * The outcome of a pass: the enemies left, the ones removed (in the order
   * they were removed), the remaining lives, and whether lives fell to zero
   * or below, which ends the pass and the session.
   */
  datatype Culled = Culled(survivors: seq<Enemy>, removed: seq<Enemy>, lives: int, over: bool)

  function Cull(s: seq<Enemy>, p: Pass, lives: int): Culled
    decreases |s|
  {
    if s == [] then Culled([], [], lives, false)
    else
      var x := Moved(p, s[|s| - 1]);
      var front := s[..|s| - 1];
      if !Costs(p, x) then
        var c := Cull(front, p, lives);
        c.(survivors := c.survivors + [x])
      else if lives - 1 <= 0 then
        Culled(front, [x], lives - 1, true)
      else
        var c := Cull(front, p, lives - 1);
        c.(removed := [x] + c.removed)
  }

  /**
   * A pass over a prefix, rejoined with what the walk already did above it:
   * the survivors behind it and the enemies it removed before it.
   */
  function Rejoin(c: Culled, done: seq<Enemy>, gone: seq<Enemy>): Culled
  {
    Culled(c.survivors + done, gone + c.removed, c.lives, c.over)
  }

  /** One step of the backward walk of a pass. */
  lemma CullUnfold(s: seq<Enemy>, i: nat, done: seq<Enemy>, gone: seq<Enemy>, p: Pass, lives: int)
    requires i < |s|
    ensures !Costs(p, Moved(p, s[i])) ==>
              Rejoin(Cull(s[..i + 1], p, lives), done, gone) ==
              Rejoin(Cull(s[..i], p, lives), [Moved(p, s[i])] + done, gone)
    ensures Costs(p, Moved(p, s[i])) && lives - 1 <= 0 ==>
              Rejoin(Cull(s[..i + 1], p, lives), done, gone) ==
              Culled(s[..i] + done, gone + [Moved(p, s[i])], lives - 1, true)
    ensures Costs(p, Moved(p, s[i])) && lives - 1 > 0 ==>
              Rejoin(Cull(s[..i + 1], p, lives), done, gone) ==
              Rejoin(Cull(s[..i], p, lives - 1), done, gone + [Moved(p, s[i])])
  {
    assert s[..i + 1][..i] == s[..i];
    var x := Moved(p, s[i]);
    if !Costs(p, x) {
      var c := Cull(s[..i], p, lives);
      assert c.survivors + [x] + done == c.survivors + ([x] + done);
    } else if lives - 1 > 0 {
      var c := Cull(s[..i], p, lives - 1);
      assert gone + ([x] + c.removed) == gone + [x] + c.removed;
    }
  }

  /**
   * Each removal costs exactly one life, every removed enemy cost one and
   * nothing is lost or duplicated; the pass ends the session exactly when
   * some removal brought lives to zero or below, and from positive lives it
   * never goes below zero.
   */
  lemma {:induction false} CullCounts(s: seq<Enemy>, p: Pass, lives: int)
    ensures Cull(s, p, lives).lives == lives - |Cull(s, p, lives).removed|
    ensures |Cull(s, p, lives).survivors| + |Cull(s, p, lives).removed| == |s|
    ensures forall k :: 0 <= k < |Cull(s, p, lives).removed| ==> Costs(p, Cull(s, p, lives).removed[k])
    ensures Cull(s, p, lives).over <==> |Cull(s, p, lives).removed| > 0 && Cull(s, p, lives).lives <= 0
    ensures Cull(s, p, lives).lives >= if lives > 0 then 0 else lives - 1
    decreases |s|
  {
    if s != [] {
      var x := Moved(p, s[|s| - 1]);
      var front := s[..|s| - 1];
      if !Costs(p, x) {
        CullCounts(front, p, lives);
      } else if lives - 1 > 0 {
        CullCounts(front, p, lives - 1);
      }
    }
  }

  /** A survivor is either an enemy the pass never reached or one that did not cost a life. */
  lemma {:induction false} CullSurvivors(s: seq<Enemy>, p: Pass, lives: int)
    ensures forall k :: 0 <= k < |Cull(s, p, lives).survivors| ==>
              Cull(s, p, lives).survivors[k] in s || !Costs(p, Cull(s, p, lives).survivors[k])
    decreases |s|
  {
    if s != [] {
      var x := Moved(p, s[|s| - 1]);
      var front := s[..|s| - 1];
      assert forall y :: y in front ==> y in s;
      if !Costs(p, x) {
        CullSurvivors(front, p, lives);
      } else if lives - 1 > 0 {
        CullSurvivors(front, p, lives - 1);
      }
    }
  }

  /** The ramming pass leaves enemies where they are: every survivor was there before. */
  lemma {:induction false} RammingOnlyRemoves(s: seq<Enemy>, ship: Player, lives: int)
    ensures forall k :: 0 <= k < |Cull(s, Ramming(ship), lives).survivors| ==>
              Cull(s, Ramming(ship), lives).survivors[k] in s
    decreases |s|
  {
    if s != [] {
      var front := s[..|s| - 1];
      assert forall y :: y in front ==> y in s;
      if !Costs(Ramming(ship), s[|s| - 1]) {
        RammingOnlyRemoves(front, ship, lives);
      } else if lives - 1 > 0 {
        RammingOnlyRemoves(front, ship, lives - 1);
      }
    }
  }

  /** The pass as a step function and an exit test, for Sweep. */
  function Step(p: Pass): Enemy -> Enemy
  {
    e => Moved(p, e)
  }

  function Spared(p: Pass): Enemy -> bool
  {
    e => !Costs(p, e)
  }

  /** A pass that does not end the session visits everything: it is the Sweep that drops the costly. */
  lemma {:induction false} CullCompletes(s: seq<Enemy>, p: Pass, lives: int)
    requires !Cull(s, p, lives).over
    ensures Cull(s, p, lives).survivors == Sweep(s, Step(p), Spared(p))
    decreases |s|
  {
    if s != [] {
      var x := Moved(p, s[|s| - 1]);
      var front := s[..|s| - 1];
      if !Costs(p, x) {
        CullCompletes(front, p, lives);
      } else {
        CullCompletes(front, p, lives - 1);
      }
    }
  }

  /** The swept tail s[m + 1..] is the swept tail of the front, plus the last enemy when it is spared. */
  lemma SweepTail(s: seq<Enemy>, m: nat, p: Pass)
    requires m + 1 < |s|
    ensures var x := Moved(p, s[|s| - 1]);
            Sweep(s[m + 1..], Step(p), Spared(p)) ==
            Sweep(s[..|s| - 1][m + 1..], Step(p), Spared(p)) + (if Costs(p, x) then [] else [x])
  {
    var t := s[m + 1..];
    assert t[..|t| - 1] == s[..|s| - 1][m + 1..];
    assert t[|t| - 1] == s[|s| - 1];
  }

  /** Where a pass that ends the session stops: the index of the enemy that took the last life. */
  function StopIndex(s: seq<Enemy>, p: Pass, lives: int): (m: nat)
    requires Cull(s, p, lives).over
    ensures m < |s|
    decreases |s|
  {
    var x := Moved(p, s[|s| - 1]);
    if !Costs(p, x) then StopIndex(s[..|s| - 1], p, lives)
    else if lives - 1 <= 0 then |s| - 1
    else StopIndex(s[..|s| - 1], p, lives - 1)
  }

  /**
   * The enemy a pass that ends the session stops at cost a life, and it
   * was the last one removed.
   */
  lemma {:induction false} CullStopsAt(s: seq<Enemy>, p: Pass, lives: int)
    requires Cull(s, p, lives).over
    ensures Costs(p, Moved(p, s[StopIndex(s, p, lives)]))
    ensures |Cull(s, p, lives).removed| > 0
    ensures Cull(s, p, lives).removed[|Cull(s, p, lives).removed| - 1] == Moved(p, s[StopIndex(s, p, lives)])
    decreases |s|
  {
    var x := Moved(p, s[|s| - 1]);
    var front := s[..|s| - 1];
    if !Costs(p, x) {
      CullStopsAt(front, p, lives);
    } else if lives - 1 > 0 {
      CullStopsAt(front, p, lives - 1);
      var c := Cull(front, p, lives - 1);
      var r := [x] + c.removed;
      assert r[|r| - 1] == c.removed[|c.removed| - 1];
    }
  }

  /**
   * Around the stop index m: everything behind it was swept, and the front
   * s[..m] was left exactly as it was, unmoved and unchecked.
   */
  lemma {:induction false} CullStopsFront(s: seq<Enemy>, p: Pass, lives: int)
    requires Cull(s, p, lives).over
    ensures var m := StopIndex(s, p, lives);
            Cull(s, p, lives).survivors == s[..m] + Sweep(s[m + 1..], Step(p), Spared(p))
    decreases |s|
  {
    var x := Moved(p, s[|s| - 1]);
    var front := s[..|s| - 1];
    if Costs(p, x) && lives - 1 <= 0 {
      var m := |s| - 1;
      assert s[m + 1..] == [];
      assert s[..m] == front;
    } else {
      var l := if Costs(p, x) then lives - 1 else lives;
      CullStopsFront(front, p, l);
      StopsFrontStep(s, p, lives, l);
    }
  }

  /** The inductive step of CullStopsFront, for a last enemy that the pass walked past. */
  lemma StopsFrontStep(s: seq<Enemy>, p: Pass, lives: int, l: int)
    requires s != []
    requires var x := Moved(p, s[|s| - 1]); !(Costs(p, x) && lives - 1 <= 0)
    requires l == if Costs(p, Moved(p, s[|s| - 1])) then lives - 1 else lives
    requires Cull(s[..|s| - 1], p, l).over
    requires var front := s[..|s| - 1]; var m := StopIndex(front, p, l);
             Cull(front, p, l).survivors == front[..m] + Sweep(front[m + 1..], Step(p), Spared(p))
    ensures Cull(s, p, lives).over
    ensures var m := StopIndex(s, p, lives);
            Cull(s, p, lives).survivors == s[..m] + Sweep(s[m + 1..], Step(p), Spared(p))
  {
    var x := Moved(p, s[|s| - 1]);
    var front := s[..|s| - 1];
    var m := StopIndex(front, p, l);
    assert StopIndex(s, p, lives) == m;
    SweepTail(s, m, p);
    assert s[..m] == front[..m];
    var c := Cull(front, p, l);
    var w := Sweep(front[m + 1..], Step(p), Spared(p));
    if !Costs(p, x) {
      assert Cull(s, p, lives) == c.(survivors := c.survivors + [x]);
      assert (front[..m] + w) + [x] == s[..m] + (w + [x]);
    } else {
      assert Cull(s, p, lives) == c.(removed := [x] + c.removed);
    }
  }
}
