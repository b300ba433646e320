/**
 * Sequence helpers shared by every page: the `Array.prototype.filter` that the
 * store and the pages apply to the collection, and the notion of an
 * order-preserving subsequence that describes its result.
 */
module Seqs {

  /** `r` can be obtained from `s` by deleting elements, keeping the order of the rest. */
  ghost predicate IsSubsequence<T>(r: seq<T>, s: seq<T>)
    decreases |s|
  {
    if r == [] then true
    else if s == [] then false
    else (r[0] == s[0] && IsSubsequence(r[1..], s[1..])) || IsSubsequence(r, s[1..])
  }

  lemma {:induction false} SubsequenceRefl<T>(s: seq<T>)
    ensures IsSubsequence(s, s)
    decreases |s|
  {
    if s != [] {
      SubsequenceRefl(s[1..]);
    }
  }

  /** `s.filter(p)`: the elements of `s` that satisfy `p`, in their original order. */
  function Filter<T>(s: seq<T>, p: T -> bool): (r: seq<T>)
    ensures |r| <= |s|
    ensures forall i :: 0 <= i < |r| ==> p(r[i])
    ensures forall x :: x in r ==> x in s
    ensures forall i :: 0 <= i < |s| && p(s[i]) ==> s[i] in r
    ensures IsSubsequence(r, s)
  {
    if s == [] then []
    else if p(s[0]) then [s[0]] + Filter(s[1..], p)
    else Filter(s[1..], p)
  }

  /** The positions of `s` whose element passes `p`. */
  ghost function Passing<T>(s: seq<T>, p: T -> bool): set<int> {
    set i | 0 <= i < |s| && p(s[i])
  }

  /** The filter keeps one element per passing position of `s`. */
  lemma {:induction false} FilterCountIndices<T>(s: seq<T>, p: T -> bool)
    ensures |Filter(s, p)| == |Passing(s, p)|
    decreases |s|
  {
    if s != [] {
      var init, x := s[..|s| - 1], s[|s| - 1];
      assert s == init + [x];
      FilterCountIndices(init, p);
      FilterAppend(init, [x], p);
      assert [x][1..] == [];
      PassingSnoc(init, x, p);
    }
  }

  /** Appending one element adds its position exactly when it passes. */
  lemma PassingSnoc<T>(init: seq<T>, x: T, p: T -> bool)
    ensures |init| !in Passing(init, p)
    ensures Passing(init + [x], p) == Passing(init, p) + (if p(x) then {|init|} else {})
  {
    var s := init + [x];
    assert forall i :: 0 <= i < |init| ==> s[i] == init[i];
  }

  /** The filter keeps every passing element exactly as often as it occurs in `s`. */
  lemma {:induction false} FilterCounts<T>(s: seq<T>, p: T -> bool)
    ensures forall i :: 0 <= i < |s| && p(s[i]) ==> multiset(Filter(s, p))[s[i]] == multiset(s)[s[i]]
  {
    if s != [] {
      FilterCounts(s[1..], p);
      FilterStep(s, p, Filter(s[1..], p));
    }
  }

  /** One step of `Filter`: prepending the head when it passes keeps every count right. */
  lemma FilterStep<T>(s: seq<T>, p: T -> bool, rest: seq<T>)
    requires s != []
    requires forall x :: x in rest ==> x in s[1..]
    requires forall i :: 0 <= i < |s[1..]| && p(s[1..][i]) ==>
      multiset(rest)[s[1..][i]] == multiset(s[1..])[s[1..][i]]
    ensures var r := if p(s[0]) then [s[0]] + rest else rest;
      forall i :: 0 <= i < |s| && p(s[i]) ==> multiset(r)[s[i]] == multiset(s)[s[i]]
  {
    var r := if p(s[0]) then [s[0]] + rest else rest;
    assert s == [s[0]] + s[1..];
    forall i | 0 <= i < |s| && p(s[i])
      ensures multiset(r)[s[i]] == multiset(s)[s[i]]
    {
      var x := s[i];
      if x in s[1..] {
        var k := IndexIn(s[1..], x);
        assert multiset(rest)[x] == multiset(s[1..])[x];
      } else {
        assert multiset(rest)[x] == 0 == multiset(s[1..])[x];
      }
    }
  }

  /** A subsequence holds each element at most as often as the whole. */
  lemma {:induction false} SubsequenceMultiset<T>(r: seq<T>, s: seq<T>)
    requires IsSubsequence(r, s)
    ensures multiset(r) <= multiset(s)
    decreases |s|
  {
    if r != [] {
      assert s == [s[0]] + s[1..];
      if r[0] == s[0] && IsSubsequence(r[1..], s[1..]) {
        SubsequenceMultiset(r[1..], s[1..]);
        assert r == [r[0]] + r[1..];
      } else {
        SubsequenceMultiset(r, s[1..]);
      }
    }
  }

  /** Being a subsequence is transitive. */
  lemma {:induction false} SubsequenceTrans<T>(r: seq<T>, q: seq<T>, s: seq<T>)
    requires IsSubsequence(r, q) && IsSubsequence(q, s)
    ensures IsSubsequence(r, s)
    decreases |s|
  {
    if r != [] {
      assert q != [] && s != [];
      if q[0] == s[0] && IsSubsequence(q[1..], s[1..]) {
        if r[0] == q[0] && IsSubsequence(r[1..], q[1..]) {
          SubsequenceTrans(r[1..], q[1..], s[1..]);
        } else {
          SubsequenceTrans(r, q[1..], s[1..]);
        }
      } else {
        SubsequenceTrans(r, q, s[1..]);
      }
    }
  }

  /**
   * The filter is the only subsequence holding every passing element as often as `s` does and
   * no failing one: order and multiplicity together pin the result.
   */
  lemma {:induction false} FilterUnique<T>(r: seq<T>, s: seq<T>, p: T -> bool)
    requires IsSubsequence(r, s)
    requires forall i :: 0 <= i < |r| ==> p(r[i])
    requires forall i :: 0 <= i < |s| && p(s[i]) ==> multiset(r)[s[i]] == multiset(s)[s[i]]
    ensures r == Filter(s, p)
    decreases |s|
  {
    if s != [] {
      var x := s[0];
      assert s == [x] + s[1..];
      if r != [] && r[0] == x && IsSubsequence(r[1..], s[1..]) {
        assert r == [x] + r[1..];
        forall i | 0 <= i < |s[1..]| && p(s[1..][i])
          ensures multiset(r[1..])[s[1..][i]] == multiset(s[1..])[s[1..][i]]
        {
          assert s[1..][i] == s[i + 1];
        }
        FilterUnique(r[1..], s[1..], p);
      } else {
        SubsequenceMultiset(r, s[1..]);
        if p(x) {
          assert false;
        }
        forall i | 0 <= i < |s[1..]| && p(s[1..][i])
          ensures multiset(r)[s[1..][i]] == multiset(s[1..])[s[1..][i]]
        {
          assert s[1..][i] == s[i + 1] != x;
        }
        FilterUnique(r, s[1..], p);
      }
    }
  }

  /** The filter keeps as many elements as there are exactly when every element passes. */
  lemma {:induction false} FilterCountAll<T>(s: seq<T>, p: T -> bool)
    ensures |Filter(s, p)| == |s| <==> forall i :: 0 <= i < |s| ==> p(s[i])
  {
    if s != [] {
      FilterCountAll(s[1..], p);
      if p(s[0]) {
        assert forall i :: 1 <= i < |s| ==> s[i] == s[1..][i - 1];
      }
    }
  }

  /** Filtering keeps everything exactly when every element passes. */
  lemma {:induction false} FilterAll<T>(s: seq<T>, p: T -> bool)
    ensures (forall i :: 0 <= i < |s| ==> p(s[i])) <==> Filter(s, p) == s
  {
    if s != [] {
      FilterAll(s[1..], p);
      if !p(s[0]) {
        assert |Filter(s, p)| < |s| by { assert |Filter(s[1..], p)| <= |s[1..]|; }
      }
    }
  }

  lemma {:induction false} FilterNone<T>(s: seq<T>, p: T -> bool)
    requires forall i :: 0 <= i < |s| ==> !p(s[i])
    ensures Filter(s, p) == []
  {
    if s != [] {
      FilterNone(s[1..], p);
    }
  }

  /** Two tests that agree on every element of `s` select the same elements. */
  lemma {:induction false} FilterCongruent<T>(s: seq<T>, p: T -> bool, q: T -> bool)
    requires forall i :: 0 <= i < |s| ==> p(s[i]) == q(s[i])
    ensures Filter(s, p) == Filter(s, q)
  {
    if s != [] {
      FilterCongruent(s[1..], p, q);
    }
  }

  lemma {:induction false} FilterAppend<T>(a: seq<T>, b: seq<T>, p: T -> bool)
    ensures Filter(a + b, p) == Filter(a, p) + Filter(b, p)
  {
    if a == [] {
      assert a + b == b;
    } else {
      assert (a + b)[1..] == a[1..] + b;
      FilterAppend(a[1..], b, p);
    }
  }

  /**
   * When `p` and `q` never both hold and each implies `r`, the elements passing `p` and those
   * passing `q` together are at most those passing `r`.
   */
  lemma {:induction false} FilterDisjointCount<T>(s: seq<T>, p: T -> bool, q: T -> bool, r: T -> bool)
    requires forall i :: 0 <= i < |s| ==> (p(s[i]) ==> r(s[i])) && (q(s[i]) ==> r(s[i]))
    requires forall i :: 0 <= i < |s| ==> !(p(s[i]) && q(s[i]))
    ensures |Filter(s, p)| + |Filter(s, q)| <= |Filter(s, r)|
  {
    if s != [] {
      FilterDisjointCount(s[1..], p, q, r);
    }
  }

  /** The first position of `x` in `s`. */
  function IndexIn<T(==)>(s: seq<T>, x: T): (i: nat)
    requires x in s
    ensures i < |s| && s[i] == x
  {
    if s[0] == x then 0 else 1 + IndexIn(s[1..], x)
  }

  /** Dropping the head removes one copy of it. */
  lemma MultisetTail<T>(s: seq<T>)
    requires s != []
    ensures multiset(s[1..]) == multiset(s) - multiset{s[0]}
  {
    assert s == [s[0]] + s[1..];
  }

  /** Dropping the element at `k` removes one copy of it. */
  lemma MultisetRemove<T>(t: seq<T>, k: int)
    requires 0 <= k < |t|
    ensures multiset(t[..k] + t[k + 1..]) == multiset(t) - multiset{t[k]}
  {
    var a, x, b := t[..k], t[k], t[k + 1..];
    assert t == a + [x] + b;
    assert multiset(t) == multiset(a) + multiset{x} + multiset(b);
  }

  /** Filtering the same elements in another order yields as many of them. */
  lemma {:induction false} FilterCountPermutation<T>(s: seq<T>, t: seq<T>, p: T -> bool)
    requires multiset(s) == multiset(t)
    ensures |Filter(s, p)| == |Filter(t, p)|
    decreases |s|
  {
    if s == [] {
      assert t == [] by { assert |t| == |multiset(t)|; }
    } else {
      var x := s[0];
      MultisetTail(s);
      assert x in multiset(t);
      var k := IndexIn(t, x);
      MultisetRemove(t, k);
      FilterCountPermutation(s[1..], t[..k] + t[k + 1..], p);
      FilterCountRemove(t, k, p);
      assert s == [x] + s[1..];
    }
  }

  /** Dropping the element at `k` lowers the filtered count by one exactly when it passes. */
  lemma FilterCountRemove<T>(t: seq<T>, k: int, p: T -> bool)
    requires 0 <= k < |t|
    ensures |Filter(t, p)| == |Filter(t[..k] + t[k + 1..], p)| + (if p(t[k]) then 1 else 0)
  {
    var a, x, b := t[..k], t[k], t[k + 1..];
    assert t == (a + [x]) + b;
    FilterAppend(a + [x], b, p);
    FilterAppend(a, [x], p);
    FilterAppend(a, b, p);
    assert [x][1..] == [];
  }
}
