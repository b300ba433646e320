/**
 * The sorts the pages run on the collection with `Array.prototype.sort`. A sort is described by
 * the field it compares and its direction; `After(spec, a, b)` is "the comparator puts `a` after
 * `b`". `SortedBy` is the order a stable sort produces, and `SortInPlace` sorts an array into it.
 */
module Sorting {
  import opened Text
  import opened Seqs
  import opened Animals

  // ----- Keys and their order -----

  /** The value a record is compared by: a number or a (lower-cased) text. */
  datatype Key = Num(n: int) | Str(s: string)

  /** JavaScript's `<` on strings: lexicographic by character code. */
  predicate StrLess(a: string, b: string)
    decreases |a|
  {
    if a == [] then b != []
    else if b == [] then false
    else if a[0] != b[0] then a[0] < b[0]
    else StrLess(a[1..], b[1..])
  }

  lemma {:induction false} StrLessIrreflexive(a: string)
    ensures !StrLess(a, a)
    decreases |a|
  {
    if a != [] {
      StrLessIrreflexive(a[1..]);
    }
  }

  lemma {:induction false} StrLessTransitive(a: string, b: string, c: string)
    requires StrLess(a, b) && StrLess(b, c)
    ensures StrLess(a, c)
    decreases |a|
  {
    if a != [] && b != [] && c != [] && a[0] == b[0] && b[0] == c[0] {
      StrLessTransitive(a[1..], b[1..], c[1..]);
    }
  }

  lemma {:induction false} StrLessTotal(a: string, b: string)
    ensures a == b || StrLess(a, b) || StrLess(b, a)
    decreases |a|
  {
    if a != [] && b != [] && a[0] == b[0] {
      StrLessTotal(a[1..], b[1..]);
      if a[1..] == b[1..] {
        assert a == [a[0]] + a[1..] && b == [b[0]] + b[1..];
      }
    }
  }

  /** Numbers compare numerically, texts lexicographically; a sort only ever meets one kind. */
  predicate KeyLess(x: Key, y: Key) {
    match (x, y)
    case (Num(m), Num(n)) => m < n
    case (Str(s), Str(t)) => StrLess(s, t)
    case (Num(_), Str(_)) => true
    case (Str(_), Num(_)) => false
  }

  /** `KeyLess` is a strict total order. */
  lemma KeyOrder(x: Key, y: Key, z: Key)
    ensures !KeyLess(x, x)
    ensures KeyLess(x, y) && KeyLess(y, z) ==> KeyLess(x, z)
    ensures x == y || KeyLess(x, y) || KeyLess(y, x)
  {
    if x.Str? {
      StrLessIrreflexive(x.s);
      if y.Str? {
        StrLessTotal(x.s, y.s);
        if z.Str? && KeyLess(x, y) && KeyLess(y, z) {
          StrLessTransitive(x.s, y.s, z.s);
        }
      }
    }
  }

  // ----- Sort descriptions -----

  datatype SortField = ByBreed | ByMilkYield | ByAge | ByLastUpdated

  datatype SortSpec = SortSpec(field: SortField, ascending: bool)

  /**
   * What a record is compared by: the lower-cased breed, the yield (missing as 0), the number at
   * the start of the age text (0 if none), or the last-update time.
   */
  function KeyOf(field: SortField, a: Animal): Key {
    match field
    case ByBreed => Str(Lower(a.breed))
    case ByMilkYield => Num(MilkYield(a))
    case ByAge => Num(ParseLeadingInt(a.age))
    case ByLastUpdated => Num(a.lastUpdated)
  }

  /** The comparator puts `a` after `b`: a greater key when ascending, a smaller one otherwise. */
  predicate After(spec: SortSpec, a: Animal, b: Animal) {
    if spec.ascending then KeyLess(KeyOf(spec.field, b), KeyOf(spec.field, a))
    else KeyLess(KeyOf(spec.field, a), KeyOf(spec.field, b))
  }

  lemma AfterAsymmetric(spec: SortSpec, a: Animal, b: Animal)
    requires After(spec, a, b)
    ensures !After(spec, b, a)
  {
    var ka, kb := KeyOf(spec.field, a), KeyOf(spec.field, b);
    KeyOrder(ka, kb, ka);
    KeyOrder(kb, ka, kb);
  }

  /** "Not after" chains: it is a total preorder. */
  lemma NotAfterTransitive(spec: SortSpec, a: Animal, b: Animal, c: Animal)
    requires !After(spec, a, b) && !After(spec, b, c)
    ensures !After(spec, a, c)
  {
    var ka, kb, kc := KeyOf(spec.field, a), KeyOf(spec.field, b), KeyOf(spec.field, c);
    KeyOrder(ka, kb, kc);
    KeyOrder(kc, kb, ka);
    KeyOrder(kb, kc, ka);
    KeyOrder(ka, kc, kb);
    KeyOrder(kc, ka, kb);
    KeyOrder(kb, ka, kc);
  }

  lemma AfterDistinctKeys(spec: SortSpec, a: Animal, b: Animal)
    requires After(spec, a, b)
    ensures KeyOf(spec.field, a) != KeyOf(spec.field, b)
  {
    KeyOrder(KeyOf(spec.field, a), KeyOf(spec.field, b), KeyOf(spec.field, a));
  }

  /** Records with equal keys are the ones neither of which the comparator puts after the other. */
  lemma SameKeyIffTied(spec: SortSpec, a: Animal, b: Animal)
    ensures KeyOf(spec.field, a) == KeyOf(spec.field, b) <==> !After(spec, a, b) && !After(spec, b, a)
  {
    var ka, kb := KeyOf(spec.field, a), KeyOf(spec.field, b);
    KeyOrder(ka, kb, ka);
  }

  /** No record is put after a later one: keys never decrease (ascending) or increase (descending). */
  ghost predicate Sorted(spec: SortSpec, s: seq<Animal>) {
    forall i, j :: 0 <= i < j < |s| ==> !After(spec, s[i], s[j])
  }

  // ----- The order a stable sort produces -----

  /** Insert `x` into `p` just before the first record the comparator puts after it. */
  function Insert(spec: SortSpec, x: Animal, p: seq<Animal>): seq<Animal> {
    if p == [] then [x]
    else if After(spec, p[0], x) then [x] + p
    else [p[0]] + Insert(spec, x, p[1..])
  }

  /** Stable insertion sort of `s`, one record at a time from the front. */
  function SortedBy(spec: SortSpec, s: seq<Animal>): seq<Animal> {
    if s == [] then [] else Insert(spec, s[|s| - 1], SortedBy(spec, s[..|s| - 1]))
  }

  lemma {:induction false} InsertPermutation(spec: SortSpec, x: Animal, p: seq<Animal>)
    ensures multiset(Insert(spec, x, p)) == multiset(p) + multiset{x}
  {
    if p != [] && !After(spec, p[0], x) {
      InsertPermutation(spec, x, p[1..]);
      assert p == [p[0]] + p[1..];
    }
  }

  lemma {:induction false} InsertSorted(spec: SortSpec, x: Animal, p: seq<Animal>)
    requires Sorted(spec, p)
    ensures Sorted(spec, Insert(spec, x, p))
  {
    if p == [] {
    } else if After(spec, p[0], x) {
      AfterAsymmetric(spec, p[0], x);
      forall j | 0 <= j < |p|
        ensures !After(spec, x, p[j])
      {
        if j > 0 {
          NotAfterTransitive(spec, x, p[0], p[j]);
        }
      }
      ConsSorted(spec, x, p);
    } else {
      assert Sorted(spec, p[1..]);
      InsertSorted(spec, x, p[1..]);
      var rest := Insert(spec, x, p[1..]);
      InsertPermutation(spec, x, p[1..]);
      forall j | 0 <= j < |rest|
        ensures !After(spec, p[0], rest[j])
      {
        assert rest[j] in multiset(rest);
        if rest[j] != x {
          assert rest[j] in multiset(p[1..]);
          var k := IndexIn(p[1..], rest[j]);
          assert p[k + 1] == rest[j];
        }
      }
      ConsSorted(spec, p[0], rest);
    }
  }

  /** A record no later than any record of a sorted sequence can go in front of it. */
  lemma ConsSorted(spec: SortSpec, y: Animal, q: seq<Animal>)
    requires Sorted(spec, q)
    requires forall j :: 0 <= j < |q| ==> !After(spec, y, q[j])
    ensures Sorted(spec, [y] + q)
  {
    var r := [y] + q;
    forall i, j | 0 <= i < j < |r|
      ensures !After(spec, r[i], r[j])
    {
      if i > 0 {
        assert r[i] == q[i - 1] && r[j] == q[j - 1];
      }
    }
  }

  /** The sorted order holds the same records, as many times each. */
  lemma {:induction false} SortedByPermutation(spec: SortSpec, s: seq<Animal>)
    ensures multiset(SortedBy(spec, s)) == multiset(s)
    ensures |SortedBy(spec, s)| == |s|
  {
    if s != [] {
      var init, x := s[..|s| - 1], s[|s| - 1];
      var p := SortedBy(spec, init);
      assert SortedBy(spec, s) == Insert(spec, x, p);
      SortedByPermutation(spec, init);
      InsertPermutation(spec, x, p);
      assert s == init + [x];
      assert multiset(s) == multiset(init) + multiset{x};
      assert |SortedBy(spec, s)| == |multiset(SortedBy(spec, s))| == |multiset(s)|;
    }
  }

  /** The sorted order is sorted. */
  lemma {:induction false} SortedBySorted(spec: SortSpec, s: seq<Animal>)
    ensures Sorted(spec, SortedBy(spec, s))
  {
    if s != [] {
      SortedBySorted(spec, s[..|s| - 1]);
      InsertSorted(spec, s[|s| - 1], SortedBy(spec, s[..|s| - 1]));
    }
  }

  /** The test "has key `k`" used to state stability. */
  function HasKey(field: SortField, k: Key): Animal -> bool {
    (a: Animal) => KeyOf(field, a) == k
  }

  lemma FilterCons(a: Animal, rest: seq<Animal>, f: Animal -> bool)
    ensures Filter([a] + rest, f) == (if f(a) then [a] else []) + Filter(rest, f)
  {
    assert ([a] + rest)[1..] == rest;
  }

  lemma {:induction false} InsertStable(spec: SortSpec, x: Animal, p: seq<Animal>, k: Key)
    requires Sorted(spec, p)
    ensures Filter(Insert(spec, x, p), HasKey(spec.field, k)) ==
            Filter(p, HasKey(spec.field, k)) + (if KeyOf(spec.field, x) == k then [x] else [])
  {
    var f := HasKey(spec.field, k);
    if p == [] {
      assert Insert(spec, x, p) == [x] + [];
      FilterCons(x, [], f);
    } else if After(spec, p[0], x) {
      assert Insert(spec, x, p) == [x] + p;
      FilterCons(x, p, f);
      if KeyOf(spec.field, x) == k {
        AllAfter(spec, x, p);
        FilterNone(p, f);
      }
    } else {
      assert Insert(spec, x, p) == [p[0]] + Insert(spec, x, p[1..]);
      assert Sorted(spec, p[1..]);
      InsertStable(spec, x, p[1..], k);
      FilterCons(p[0], Insert(spec, x, p[1..]), f);
      FilterCons(p[0], p[1..], f);
      assert [p[0]] + p[1..] == p;
    }
  }

  /** When a sorted sequence's head comes after `x`, no record in it shares `x`'s key. */
  lemma AllAfter(spec: SortSpec, x: Animal, p: seq<Animal>)
    requires Sorted(spec, p) && p != [] && After(spec, p[0], x)
    ensures forall j :: 0 <= j < |p| ==> !HasKey(spec.field, KeyOf(spec.field, x))(p[j])
  {
    forall j | 0 <= j < |p|
      ensures KeyOf(spec.field, p[j]) != KeyOf(spec.field, x)
    {
      if !After(spec, p[j], x) {
        if j > 0 {
          NotAfterTransitive(spec, p[0], p[j], x);
        }
      }
      AfterDistinctKeys(spec, p[j], x);
    }
  }

  lemma FilterSnoc(init: seq<Animal>, x: Animal, f: Animal -> bool)
    ensures Filter(init + [x], f) == Filter(init, f) + (if f(x) then [x] else [])
  {
    FilterAppend(init, [x], f);
    FilterCons(x, [], f);
    assert [x] + [] == [x];
  }

  /** Stability: among records with equal keys, the sorted order keeps the original order. */
  lemma {:induction false} SortedByStable(spec: SortSpec, s: seq<Animal>, k: Key)
    ensures Filter(SortedBy(spec, s), HasKey(spec.field, k)) == Filter(s, HasKey(spec.field, k))
  {
    if s != [] {
      var init, x := s[..|s| - 1], s[|s| - 1];
      var p := SortedBy(spec, init);
      assert SortedBy(spec, s) == Insert(spec, x, p);
      assert s == init + [x];
      SortedBySorted(spec, init);
      InsertStable(spec, x, p, k);
      SortedByStable(spec, init, k);
      FilterSnoc(init, x, HasKey(spec.field, k));
    }
  }

  /**
   * A stable sort has one possible result: any sorted sequence that keeps, for every key, the
   * records of that key in their original order is `SortedBy`.
   */
  lemma StableSortIsUnique(spec: SortSpec, s: seq<Animal>, r: seq<Animal>)
    requires Sorted(spec, r)
    requires forall k :: Filter(r, HasKey(spec.field, k)) == Filter(s, HasKey(spec.field, k))
    ensures r == SortedBy(spec, s)
  {
    var t := SortedBy(spec, s);
    SortedBySorted(spec, s);
    forall k
      ensures Filter(r, HasKey(spec.field, k)) == Filter(t, HasKey(spec.field, k))
    {
      SortedByStable(spec, s, k);
    }
    SortedSameGroupsEqual(spec, r, t);
  }

  /** A record is in the group of its own key. */
  lemma InOwnGroup(spec: SortSpec, r: seq<Animal>, i: int)
    requires 0 <= i < |r|
    ensures r[i] in Filter(r, HasKey(spec.field, KeyOf(spec.field, r[i])))
  {
  }

  /** The first record of a sorted sequence is not put after any record in it. */
  lemma HeadIsFirst(spec: SortSpec, r: seq<Animal>, y: Animal)
    requires Sorted(spec, r) && y in r
    ensures !After(spec, r[0], y)
  {
    var j :| 0 <= j < |r| && r[j] == y;
    if j > 0 {
      assert !After(spec, r[0], r[j]);
    } else {
      SameKeyIffTied(spec, y, y);
    }
  }

  /** The first record of a sequence heads the group of its key. */
  lemma HeadsItsGroup(spec: SortSpec, r: seq<Animal>)
    requires r != []
    ensures Filter(r, HasKey(spec.field, KeyOf(spec.field, r[0]))) != []
    ensures Filter(r, HasKey(spec.field, KeyOf(spec.field, r[0])))[0] == r[0]
  {
    FilterCons(r[0], r[1..], HasKey(spec.field, KeyOf(spec.field, r[0])));
    assert [r[0]] + r[1..] == r;
  }

  /** Two sorted sequences with the same groups start with the same record. */
  lemma SameHead(spec: SortSpec, r: seq<Animal>, t: seq<Animal>)
    requires Sorted(spec, r) && Sorted(spec, t) && r != [] && t != []
    requires forall k :: Filter(r, HasKey(spec.field, k)) == Filter(t, HasKey(spec.field, k))
    ensures r[0] == t[0]
  {
    var kr, kt := KeyOf(spec.field, r[0]), KeyOf(spec.field, t[0]);
    var gr, gt := Filter(r, HasKey(spec.field, kr)), Filter(r, HasKey(spec.field, kt));
    assert gr == Filter(t, HasKey(spec.field, kr));
    assert gt == Filter(t, HasKey(spec.field, kt));
    InOwnGroup(spec, r, 0);
    InOwnGroup(spec, t, 0);
    HeadIsFirst(spec, t, r[0]);
    HeadIsFirst(spec, r, t[0]);
    SameKeyIffTied(spec, r[0], t[0]);
    HeadsItsGroup(spec, r);
    HeadsItsGroup(spec, t);
  }

  lemma {:induction false} SortedSameGroupsEqual(spec: SortSpec, r: seq<Animal>, t: seq<Animal>)
    requires Sorted(spec, r) && Sorted(spec, t)
    requires forall k :: Filter(r, HasKey(spec.field, k)) == Filter(t, HasKey(spec.field, k))
    ensures r == t
    decreases |r| + |t|
  {
    if r == [] || t == [] {
      if r != [] {
        InOwnGroup(spec, r, 0);
      }
      if t != [] {
        InOwnGroup(spec, t, 0);
      }
    } else {
      SameHead(spec, r, t);
      assert [r[0]] + r[1..] == r && [t[0]] + t[1..] == t;
      forall k
        ensures Filter(r[1..], HasKey(spec.field, k)) == Filter(t[1..], HasKey(spec.field, k))
      {
        FilterCons(r[0], r[1..], HasKey(spec.field, k));
        FilterCons(t[0], t[1..], HasKey(spec.field, k));
      }
      assert Sorted(spec, r[1..]) && Sorted(spec, t[1..]);
      SortedSameGroupsEqual(spec, r[1..], t[1..]);
    }
  }

  // ----- Sorting an array in place -----

  /** `Insert` splits `p` where the records the comparator puts after `x` begin. */
  lemma {:induction false} InsertSplit(spec: SortSpec, x: Animal, p: seq<Animal>, j: int)
    requires 0 <= j <= |p|
    requires forall k :: 0 <= k < j ==> !After(spec, p[k], x)
    requires forall k :: j <= k < |p| ==> After(spec, p[k], x)
    ensures Insert(spec, x, p) == p[..j] + [x] + p[j..]
  {
    if j > 0 {
      InsertSplit(spec, x, p[1..], j - 1);
      assert p[..j] == [p[0]] + p[1..][..j - 1];
      assert p[j..] == p[1..][j - 1..];
    }
  }

  /** The arrangement `InsertAt` reaches is the one `Insert` describes. */
  lemma PlacedIsInsert(spec: SortSpec, p: seq<Animal>, x: Animal, j: int, r: seq<Animal>)
    requires Sorted(spec, p) && 0 <= j <= |p| && |r| == |p| + 1
    requires forall k :: 0 <= k < j ==> r[k] == p[k]
    requires r[j] == x
    requires forall k :: j < k < |r| ==> r[k] == p[k - 1]
    requires forall k :: j <= k < |p| ==> After(spec, p[k], x)
    requires j == 0 || !After(spec, p[j - 1], x)
    ensures r == Insert(spec, x, p)
  {
    forall k | 0 <= k < j
      ensures !After(spec, p[k], x)
    {
      if k < j - 1 {
        NotAfterTransitive(spec, p[k], p[j - 1], x);
      }
    }
    InsertSplit(spec, x, p, j);
    assert r == p[..j] + [x] + p[j..];
  }

  /** Moves `a[i]` left into the sorted prefix `a[..i]`, where `Insert` puts it. */
  method InsertAt(a: array<Animal>, i: int, spec: SortSpec)
    requires 0 <= i < a.Length
    requires Sorted(spec, a[..i])
    modifies a
    ensures a[..i + 1] == Insert(spec, old(a[i]), old(a[..i]))
    ensures a[i + 1..] == old(a[i + 1..])
  {
    ghost var P := a[..i];
    ghost var x := a[i];
    var j := ShiftPast(a, i, spec);
    PlacedIsInsert(spec, P, x, j, a[..i + 1]);
    assert a[i + 1..] == old(a[i + 1..]);
  }

  /** The loop of `InsertAt`: swaps `a[i]` left past every record the comparator puts after it. */
  method ShiftPast(a: array<Animal>, i: int, spec: SortSpec) returns (j: int)
    requires 0 <= i < a.Length
    modifies a
    ensures 0 <= j <= i
    ensures forall k :: 0 <= k < j ==> a[k] == old(a[k])
    ensures a[j] == old(a[i])
    ensures forall k :: j < k <= i ==> a[k] == old(a[k - 1])
    ensures forall k :: i < k < a.Length ==> a[k] == old(a[k])
    ensures forall k :: j <= k < i ==> After(spec, old(a[k]), old(a[i]))
    ensures j == 0 || !After(spec, old(a[j - 1]), old(a[i]))
  {
    ghost var A := a[..];
    var x := a[i];
    j := i;
    while j > 0 && After(spec, a[j - 1], x)
      invariant 0 <= j <= i
      invariant forall k :: 0 <= k < j ==> a[k] == A[k]
      invariant a[j] == x
      invariant forall k :: j < k <= i ==> a[k] == A[k - 1]
      invariant forall k :: i < k < a.Length ==> a[k] == A[k]
      invariant forall k :: j <= k < i ==> After(spec, A[k], x)
    {
      a[j - 1], a[j] := a[j], a[j - 1];
      j := j - 1;
    }
  }

  /**
   * `a.sort(comparator)`: an insertion sort that moves each record left past the records the
   * comparator puts after it. The array ends up in the order `SortedBy` describes.
   */
  method SortInPlace(a: array<Animal>, spec: SortSpec)
    modifies a
    ensures a[..] == SortedBy(spec, old(a[..]))
  {
    ghost var A := a[..];
    var i := 0;
    while i < a.Length
      invariant 0 <= i <= a.Length
      invariant a[..i] == SortedBy(spec, A[..i])
      invariant a[i..] == A[i..]
    {
      SortedBySorted(spec, A[..i]);
      InsertAt(a, i, spec);
      assert A[..i + 1][..i] == A[..i];
      i := i + 1;
    }
    assert A[..a.Length] == A;
  }
}
