/**
 * The shape of the game's cleanup loops: walk an array from its last
 * element down to its first, update each element in place and splice it
 * out when it fails a test. Defined from the back, in the order the loops
 * visit elements.
 */
module Sweeps {

  /** What survives a backward step-and-filter pass over s, in array order. */
  function Sweep<T>(s: seq<T>, step: T -> T, keep: T -> bool): (r: seq<T>)
    ensures |r| <= |s|
    decreases |s|
  {
    if s == [] then []
    else
      var x := step(s[|s| - 1]);
      Sweep(s[..|s| - 1], step, keep) + (if keep(x) then [x] else [])
  }

  /** The indices, ascending, of the elements of s that survive Sweep. */
  function Kept<T>(s: seq<T>, step: T -> T, keep: T -> bool): seq<nat>
    decreases |s|
  {
    if s == [] then []
    else Kept(s[..|s| - 1], step, keep) + (if keep(step(s[|s| - 1])) then [|s| - 1] else [])
  }

  /**
   * Sweep keeps exactly the elements whose stepped value passes the test,
   * each stepped once, in their original relative order.
   */
  lemma {:induction false} SweepKeepsExactly<T>(s: seq<T>, step: T -> T, keep: T -> bool)
    ensures |Sweep(s, step, keep)| == |Kept(s, step, keep)|
    ensures forall k :: 0 <= k < |Kept(s, step, keep)| ==>
              Kept(s, step, keep)[k] < |s| &&
              Sweep(s, step, keep)[k] == step(s[Kept(s, step, keep)[k]])
    ensures forall k, l :: 0 <= k < l < |Kept(s, step, keep)| ==>
              Kept(s, step, keep)[k] < Kept(s, step, keep)[l]
    ensures forall j :: 0 <= j < |s| ==> (j in Kept(s, step, keep) <==> keep(step(s[j])))
  {
    if s != [] {
      var front := s[..|s| - 1];
      SweepKeepsExactly(front, step, keep);
      var idx, idx' := Kept(s, step, keep), Kept(front, step, keep);
      assert forall k :: 0 <= k < |idx'| ==> idx'[k] < |front|;
      forall j | 0 <= j < |s|
        ensures j in idx <==> keep(step(s[j]))
      {
        if j < |front| {
          assert s[j] == front[j];
          assert j in idx <==> j in idx';
        }
      }
    }
  }

  /** One step of the backward walk: element i is stepped, then kept or dropped. */
  lemma SweepUnfold<T>(s: seq<T>, i: nat, done: seq<T>, step: T -> T, keep: T -> bool)
    requires i < |s|
    ensures keep(step(s[i])) ==>
              Sweep(s[..i + 1], step, keep) + done == Sweep(s[..i], step, keep) + ([step(s[i])] + done)
    ensures !keep(step(s[i])) ==>
              Sweep(s[..i + 1], step, keep) + done == Sweep(s[..i], step, keep) + done
  {
    assert s[..i + 1][..i] == s[..i];
  }

  /**
   * The array shapes of a backward walk that has visited everything above
   * index i: replacing element i and splicing it out.
   */
  lemma Splice<T>(s: seq<T>, done: seq<T>, i: nat, x: T)
    requires i < |s|
    ensures (s[..i + 1] + done)[i := x] == s[..i] + ([x] + done)
    ensures (s[..i + 1] + done)[i := x][..i] + (s[..i + 1] + done)[i := x][i + 1..] == s[..i] + done
  {
    var t := (s[..i + 1] + done)[i := x];
    assert t == s[..i] + ([x] + done);
    assert t[..i] == s[..i];
    assert t[i + 1..] == done;
  }

  /** Every survivor of a Sweep passes the test. */
  lemma SweepAllPass<T>(s: seq<T>, step: T -> T, keep: T -> bool)
    ensures forall k :: 0 <= k < |Sweep(s, step, keep)| ==> keep(Sweep(s, step, keep)[k])
  {
    SweepKeepsExactly(s, step, keep);
  }
}
