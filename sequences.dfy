/**
 * `Array.prototype.filter` on a sequence, and the fact that it keeps
 * exactly the elements its predicate accepts, in their original order.
 */
module Sequences {

  function Filter<T>(s: seq<T>, p: T -> bool): (r: seq<T>)
    ensures |r| <= |s|
    ensures forall k :: 0 <= k < |r| ==> r[k] in s && p(r[k])
  {
    if s == [] then []
    else if p(s[0]) then [s[0]] + Filter(s[1..], p)
    else Filter(s[1..], p)
  }

  /** Each index of `q` moved one place to the right. */
  function Shift(q: seq<nat>): (r: seq<nat>)
    ensures |r| == |q| && forall k :: 0 <= k < |q| ==> r[k] == q[k] + 1
  {
    seq(|q|, k requires 0 <= k < |q| => q[k] + 1)
  }

  /** The indices of `s` at which `p` holds, in increasing order. */
  function Positions<T>(s: seq<T>, p: T -> bool): seq<nat>
  {
    if s == [] then []
    else (if p(s[0]) then [0] else []) + Shift(Positions(s[1..], p))
  }

  /**
   * `r` is `s` restricted to the indices `ix`, which increase and are
   * exactly the indices at which `p` holds: `r` is the subsequence of `s`
   * made of the elements `p` accepts, in their original order.
   */
  ghost predicate IsSelection<T>(r: seq<T>, s: seq<T>, ix: seq<nat>, p: T -> bool)
  {
    && |ix| == |r|
    && (forall k :: 0 <= k < |ix| ==> ix[k] < |s| && r[k] == s[ix[k]])
    && (forall k, l :: 0 <= k < l < |ix| ==> ix[k] < ix[l])
    && (forall i :: 0 <= i < |s| ==> (i in ix <==> p(s[i])))
  }

  lemma {:induction false} FilterPositions<T>(s: seq<T>, p: T -> bool)
    ensures IsSelection(Filter(s, p), s, Positions(s, p), p)
  {
    PositionsInRange(s, p);
    PositionsIncrease(s, p);
    PositionsExact(s, p);
    FilterAtPositions(s, p);
  }

  lemma {:induction false} PositionsInRange<T>(s: seq<T>, p: T -> bool)
    ensures forall k :: 0 <= k < |Positions(s, p)| ==> Positions(s, p)[k] < |s|
  {
    if s != [] {
      PositionsInRange(s[1..], p);
    }
  }

  lemma {:induction false} PositionsIncrease<T>(s: seq<T>, p: T -> bool)
    ensures forall k, l :: 0 <= k < l < |Positions(s, p)| ==> Positions(s, p)[k] < Positions(s, p)[l]
  {
    if s != [] {
      PositionsIncrease(s[1..], p);
      var sq := Shift(Positions(s[1..], p));
      assert forall k, l :: 0 <= k < l < |sq| ==> sq[k] < sq[l];
      assert forall k :: 0 <= k < |sq| ==> sq[k] > 0;
    }
  }

  lemma {:induction false} PositionsExact<T>(s: seq<T>, p: T -> bool)
    ensures forall i :: 0 <= i < |s| ==> (i in Positions(s, p) <==> p(s[i]))
  {
    if s != [] {
      PositionsExact(s[1..], p);
      var q := Positions(s[1..], p);
      var sq := Shift(q);
      var ix := Positions(s, p);
      assert ix == (if p(s[0]) then [0] else []) + sq;
      forall i | 0 <= i < |s|
        ensures i in ix <==> p(s[i])
      {
        if i > 0 {
          assert s[i] == s[1..][i - 1];
          if i - 1 in q {
            var k :| 0 <= k < |q| && q[k] == i - 1;
            assert sq[k] == i;
          }
        } else {
          assert forall k :: 0 <= k < |sq| ==> sq[k] > 0;
        }
      }
    }
  }

  lemma {:induction false} FilterAtPositions<T>(s: seq<T>, p: T -> bool)
    ensures |Positions(s, p)| == |Filter(s, p)|
    ensures forall k :: 0 <= k < |Positions(s, p)| ==> Positions(s, p)[k] < |s| && Filter(s, p)[k] == s[Positions(s, p)[k]]
  {
    PositionsInRange(s, p);
    if s != [] {
      FilterAtPositions(s[1..], p);
      var tail, q := Filter(s[1..], p), Positions(s[1..], p);
      var h := if p(s[0]) then 1 else 0;
      var r, ix := Filter(s, p), Positions(s, p);
      assert r == (if p(s[0]) then [s[0]] else []) + tail;
      assert ix == (if p(s[0]) then [0] else []) + Shift(q);
      forall k | h <= k < |ix|
        ensures r[k] == s[ix[k]]
      {
        assert ix[k] == q[k - h] + 1 && r[k] == tail[k - h];
        assert s[ix[k]] == s[1..][q[k - h]];
      }
    }
  }

  lemma {:induction false} FilterConcat<T>(a: seq<T>, b: seq<T>, p: T -> bool)
    ensures Filter(a + b, p) == Filter(a, p) + Filter(b, p)
  {
    if a == [] {
      assert a + b == b;
    } else {
      assert (a + b)[1..] == a[1..] + b;
      FilterConcat(a[1..], b, p);
    }
  }

  lemma FilterSingleton<T>(x: T, p: T -> bool)
    ensures Filter([x], p) == if p(x) then [x] else []
  {
    assert [x][1..] == [];
  }

  /** Two predicates that agree on every element select the same elements. */
  lemma {:induction false} FilterCongruent<T>(s: seq<T>, p: T -> bool, q: T -> bool)
    requires forall i :: 0 <= i < |s| ==> p(s[i]) == q(s[i])
    ensures Filter(s, p) == Filter(s, q)
  {
    if s != [] {
      FilterCongruent(s[1..], p, q);
    }
  }

  lemma {:induction false} FilterKeepsAll<T>(s: seq<T>, p: T -> bool)
    requires forall i :: 0 <= i < |s| ==> p(s[i])
    ensures Filter(s, p) == s
  {
    if s != [] {
      FilterKeepsAll(s[1..], p);
    }
  }
}
