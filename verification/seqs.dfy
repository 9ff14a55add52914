/** Order-preserving filtering, the shape of the scraper's "keep the rows that qualify" loops. */
module Seqs {

  /** The elements of `s` satisfying `p`, in their original order. */
  function Filter<T>(s: seq<T>, p: T -> bool): (r: seq<T>)
    ensures |r| <= |s|
    ensures forall k :: 0 <= k < |r| ==> p(r[k])
  {
    if s == [] then [] else (if p(s[0]) then [s[0]] else []) + Filter(s[1..], p)
  }

  /** The positions of `s` whose element satisfies `p`. */
  ghost function Positions<T>(s: seq<T>, p: T -> bool): set<nat>
  {
    set i: nat | i < |s| && p(s[i])
  }

  lemma {:induction false} FilterAppend<T>(a: seq<T>, b: seq<T>, p: T -> bool)
    ensures Filter(a + b, p) == Filter(a, p) + Filter(b, p)
  {
    if a == [] {
      assert a + b == b;
    } else {
      assert (a + b)[1..] == a[1..] + b;
      FilterAppend(a[1..], b, p);
    }
  }

  /** The filter keeps one element for every position that satisfies `p`. */
  lemma {:induction false} FilterCount<T>(s: seq<T>, p: T -> bool)
    ensures |Filter(s, p)| == |Positions(s, p)|
    decreases |s|
  {
    if s == [] {
      assert Positions(s, p) == {};
    } else {
      var init, last := s[..|s| - 1], s[|s| - 1];
      assert s == init + [last];
      FilterAppend(init, [last], p);
      FilterCount(init, p);
      assert Filter([last], p) == (if p(last) then [last] else []) + Filter([], p);
      var before := Positions(init, p);
      var after := Positions(s, p);
      forall i: nat | i < |init| ensures i in after <==> i in before {
        assert s[i] == init[i];
      }
      if p(last) {
        assert after == before + {|init|};
      } else {
        assert after == before;
      }
    }
  }

  /** A stricter filter keeps no more elements, and exactly as many iff the two agree on `s`. */
  lemma {:induction false} FilterStricter<T>(s: seq<T>, p: T -> bool, q: T -> bool)
    requires forall x :: p(x) ==> q(x)
    ensures |Filter(s, p)| <= |Filter(s, q)|
    ensures |Filter(s, p)| == |Filter(s, q)| <==> forall k :: 0 <= k < |s| ==> (q(s[k]) ==> p(s[k]))
  {
    if s != [] {
      FilterStricter(s[1..], p, q);
      assert forall k :: 1 <= k < |s| ==> s[k] == s[1..][k - 1];
    }
  }
}
