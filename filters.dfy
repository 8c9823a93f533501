/**
 * `list.filter(keep)`, with the positions of the elements it keeps: the
 * result is the kept elements in their original order, each once.
 */
module Filters {

  function Filter<T>(s: seq<T>, keep: T -> bool): seq<T>
    decreases |s|
  {
    if s == [] then [] else (if keep(s[0]) then [s[0]] else []) + Filter(s[1..], keep)
  }

  /** Every position moved one place to the right. */
  function Shift(p: seq<nat>): (r: seq<nat>)
    ensures |r| == |p| && forall j :: 0 <= j < |p| ==> r[j] == p[j] + 1
  {
    seq(|p|, j requires 0 <= j < |p| => p[j] + 1)
  }

  /** The positions of the kept elements, in increasing order. */
  function Positions<T>(s: seq<T>, keep: T -> bool): seq<nat>
    decreases |s|
  {
    if s == [] then [] else (if keep(s[0]) then [0] else []) + Shift(Positions(s[1..], keep))
  }

  lemma {:induction false} PositionsLength<T>(s: seq<T>, keep: T -> bool)
    ensures |Positions(s, keep)| == |Filter(s, keep)|
    decreases |s|
  {
    if s != [] {
      PositionsLength(s[1..], keep);
    }
  }

  /** Each position holds a kept element, and it is the corresponding element of the result. */
  lemma {:induction false} PositionsSelect<T>(s: seq<T>, keep: T -> bool)
    requires |Positions(s, keep)| == |Filter(s, keep)|
    ensures var r, idx := Filter(s, keep), Positions(s, keep);
      forall j :: 0 <= j < |idx| ==> idx[j] < |s| && keep(s[idx[j]]) && r[j] == s[idx[j]]
    decreases |s|
  {
    if s != [] {
      var t := s[1..];
      PositionsLength(t, keep);
      PositionsSelect(t, keep);
      var rt, it := Filter(t, keep), Positions(t, keep);
      var n := if keep(s[0]) then 1 else 0;
      var idx := Positions(s, keep);
      var r := Filter(s, keep);
      forall j | n <= j < |idx|
        ensures idx[j] < |s| && keep(s[idx[j]]) && r[j] == s[idx[j]]
      {
        var m := j - n;
        assert idx[j] == it[m] + 1 && r[j] == rt[m];
        assert s[it[m] + 1] == t[it[m]];
      }
    }
  }

  lemma {:induction false} PositionsIncrease<T>(s: seq<T>, keep: T -> bool)
    ensures forall j1, j2 :: 0 <= j1 < j2 < |Positions(s, keep)| ==> Positions(s, keep)[j1] < Positions(s, keep)[j2]
    decreases |s|
  {
    if s != [] {
      var it := Positions(s[1..], keep);
      PositionsIncrease(s[1..], keep);
      var n := if keep(s[0]) then 1 else 0;
      var head: seq<nat> := if keep(s[0]) then [0] else [];
      var sh := Shift(it);
      var idx := Positions(s, keep);
      assert idx == head + sh && |head| == n;
      forall j1, j2 | 0 <= j1 < j2 < |idx|
        ensures idx[j1] < idx[j2]
      {
        assert idx[j2] == sh[j2 - n] == it[j2 - n] + 1;
        if j1 >= n {
          assert idx[j1] == sh[j1 - n] == it[j1 - n] + 1;
          assert it[j1 - n] < it[j2 - n];
        } else {
          assert idx[j1] == head[j1] == 0;
        }
      }
    }
  }

  lemma {:induction false} PositionsComplete<T>(s: seq<T>, keep: T -> bool)
    ensures forall i :: 0 <= i < |s| && keep(s[i]) ==> i in Positions(s, keep)
    decreases |s|
  {
    if s != [] {
      var t := s[1..];
      PositionsComplete(t, keep);
      var it := Positions(t, keep);
      var n := if keep(s[0]) then 1 else 0;
      var idx := Positions(s, keep);
      forall i | 0 < i < |s| && keep(s[i])
        ensures i in idx
      {
        assert t[i - 1] == s[i];
        var m :| 0 <= m < |it| && it[m] == i - 1;
        assert idx[n + m] == i;
      }
    }
  }

  /**
   * The filter is the in-order selection at its positions: the j-th
   * result is the element at the j-th position, the positions strictly
   * increase, and every kept position is among them.
   */
  lemma FilterInOrder<T>(s: seq<T>, keep: T -> bool)
    ensures var r, idx := Filter(s, keep), Positions(s, keep);
      && |idx| == |r|
      && (forall j :: 0 <= j < |idx| ==> idx[j] < |s| && keep(s[idx[j]]) && r[j] == s[idx[j]])
      && (forall j1, j2 :: 0 <= j1 < j2 < |idx| ==> idx[j1] < idx[j2])
      && (forall i :: 0 <= i < |s| && keep(s[i]) ==> i in idx)
  {
    PositionsLength(s, keep);
    PositionsSelect(s, keep);
    PositionsIncrease(s, keep);
    PositionsComplete(s, keep);
  }
}
