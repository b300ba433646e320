/**
 * The animal store: the in-memory collection, its persisted copy, and the queries every page
 * runs against it (lookup by id, text search, category filter, milk-yield statistics).
 */
module AnimalStore {
  import opened Wrappers
  import opened Text
  import opened Seqs
  import opened Animals

  // ----- Lookup -----

  /** `s.find(a => a.id === id)`: the first record with that id, if any. */
  function FindById(s: seq<Animal>, id: string): (r: Option<Animal>)
    ensures r.None? <==> forall i :: 0 <= i < |s| ==> s[i].id != id
    ensures r.Some? ==> exists i :: 0 <= i < |s| && s[i] == r.value && FirstWithId(s, id, i)
  {
    if s == [] then None
    else if s[0].id == id then
      assert FirstWithId(s, id, 0);
      Some(s[0])
    else
      var r := FindById(s[1..], id);
      if r.Some? then
        var i :| 0 <= i < |s[1..]| && s[1..][i] == r.value && FirstWithId(s[1..], id, i);
        assert FirstWithId(s, id, i + 1);
        r
      else r
  }

  /** Position `i` holds the first record of `s` whose id is `id`. */
  predicate FirstWithId(s: seq<Animal>, id: string, i: int) {
    0 <= i < |s| && s[i].id == id && forall j :: 0 <= j < i ==> s[j].id != id
  }

  lemma FirstWithIdUnique(s: seq<Animal>, id: string, i: int, j: int)
    requires FirstWithId(s, id, i) && FirstWithId(s, id, j)
    ensures i == j
  {
  }

  // ----- Update and delete -----

  /**
   * `s.map(a => a.id === id ? { ...a, ...changes, lastUpdated: now } : a)`: the same records in
   * the same order, each one with that id merged and re-stamped.
   */
  function Updated(s: seq<Animal>, id: string, changes: Patch, now: int): (r: seq<Animal>)
    ensures |r| == |s|
    ensures forall i :: 0 <= i < |s| && s[i].id != id ==> r[i] == s[i]
    ensures forall i :: 0 <= i < |s| && s[i].id == id ==> r[i] == Refreshed(s[i], changes, now)
  {
    if s == [] then []
    else [if s[0].id == id then Refreshed(s[0], changes, now) else s[0]] + Updated(s[1..], id, changes, now)
  }

  /** An update for an id nobody has is a no-op. */
  lemma UpdateMissingIsNoOp(s: seq<Animal>, id: string, changes: Patch, now: int)
    requires FindById(s, id).None?
    ensures Updated(s, id, changes, now) == s
  {
  }

  /**
   * After an update that does not rename the record, looking the id up finds the first old
   * record with that id, merged and re-stamped.
   */
  lemma {:induction false} UpdateThenFind(s: seq<Animal>, id: string, changes: Patch, now: int)
    requires changes.id.None? || changes.id == Some(id)
    ensures FindById(Updated(s, id, changes, now), id) ==
            if FindById(s, id).Some? then Some(Refreshed(FindById(s, id).value, changes, now)) else None
  {
    if s != [] {
      var u := Updated(s, id, changes, now);
      assert u[1..] == Updated(s[1..], id, changes, now);
      UpdateThenFind(s[1..], id, changes, now);
    }
  }

  /** An update that does not rename the record leaves every other id's lookup as it was. */
  lemma {:induction false} UpdateKeepsOthers(s: seq<Animal>, id: string, other: string, changes: Patch, now: int)
    requires other != id
    requires changes.id.None? || changes.id == Some(id)
    ensures FindById(Updated(s, id, changes, now), other) == FindById(s, other)
  {
    if s != [] {
      var u := Updated(s, id, changes, now);
      assert u[1..] == Updated(s[1..], id, changes, now);
      UpdateKeepsOthers(s[1..], id, other, changes, now);
    }
  }

  /** `s.filter(a => a.id !== id)`. */
  function Removed(s: seq<Animal>, id: string): (r: seq<Animal>)
    ensures IsSubsequence(r, s)
    ensures forall i :: 0 <= i < |r| ==> r[i].id != id
    ensures forall i :: 0 <= i < |s| && s[i].id != id ==> multiset(r)[s[i]] == multiset(s)[s[i]]
  {
    var p := (a: Animal) => a.id != id;
    FilterCounts(s, p);
    Filter(s, p)
  }

  /** After a delete, the id is found no more. */
  lemma DeleteThenFind(s: seq<Animal>, id: string)
    ensures FindById(Removed(s, id), id).None?
  {
  }

  /** Deleting an id nobody has is a no-op. */
  lemma DeleteMissingIsNoOp(s: seq<Animal>, id: string)
    requires FindById(s, id).None?
    ensures Removed(s, id) == s
  {
    FilterAll(s, (a: Animal) => a.id != id);
  }

  /** A delete leaves every other id's lookup as it was. */
  lemma {:induction false} DeleteKeepsOthers(s: seq<Animal>, id: string, other: string)
    requires other != id
    ensures FindById(Removed(s, id), other) == FindById(s, other)
  {
    if s != [] {
      assert Removed(s, id) == (if s[0].id != id then [s[0]] else []) + Removed(s[1..], id);
      DeleteKeepsOthers(s[1..], id, other);
    }
  }

  // ----- Search and category filter -----

  /** A record matches a lower-cased query on its breed, code, colour or owner. */
  predicate MatchesQuery(a: Animal, lowerQuery: string) {
    || Contains(Lower(a.breed), lowerQuery)
    || Contains(Lower(a.animalId), lowerQuery)
    || Contains(Lower(a.color), lowerQuery)
    || Contains(Lower(a.owner), lowerQuery)
  }

  /**
   * `searchAnimals(query)`: the whole collection for an empty query; otherwise exactly the
   * records matching it, case-insensitively, in their original order.
   */
  function Search(s: seq<Animal>, query: string): (r: seq<Animal>)
    ensures query == "" ==> r == s
    ensures IsSubsequence(r, s)
    ensures forall i :: 0 <= i < |r| ==> query == "" || MatchesQuery(r[i], Lower(query))
    ensures forall i :: 0 <= i < |s| && MatchesQuery(s[i], Lower(query)) ==> multiset(r)[s[i]] == multiset(s)[s[i]]
  {
    if query == "" then
      SubsequenceRefl(s);
      s
    else
      var p := (a: Animal) => MatchesQuery(a, Lower(query));
      FilterCounts(s, p);
      Filter(s, p)
  }

  predicate IsCattleBreed(a: Animal) {
    Contains(Lower(a.breed), "holstein") || Contains(Lower(a.breed), "jersey")
  }

  predicate IsBuffaloBreed(a: Animal) {
    Contains(Lower(a.breed), "buffalo") || Contains(Lower(a.breed), "murrah")
  }

  /** The store's category test: 'cattle' and 'buffalo' by breed keywords, anything else passes. */
  predicate InCategory(a: Animal, category: string) {
    if category == "cattle" then IsCattleBreed(a)
    else if category == "buffalo" then IsBuffaloBreed(a)
    else true
  }

  /**
   * `filterAnimals(category)`: the records of that category in their original order; 'all' and
   * any unknown category give back the whole collection.
   */
  function FilterByCategory(s: seq<Animal>, category: string): (r: seq<Animal>)
    ensures category != "cattle" && category != "buffalo" ==> r == s
    ensures IsSubsequence(r, s)
    ensures forall i :: 0 <= i < |r| ==> InCategory(r[i], category)
    ensures forall i :: 0 <= i < |s| && InCategory(s[i], category) ==> multiset(r)[s[i]] == multiset(s)[s[i]]
  {
    if category == "all" then
      SubsequenceRefl(s);
      s
    else if category == "cattle" then
      FilterCounts(s, IsCattleBreed);
      Filter(s, IsCattleBreed)
    else if category == "buffalo" then
      FilterCounts(s, IsBuffaloBreed);
      Filter(s, IsBuffaloBreed)
    else
      SubsequenceRefl(s);
      s
  }

  /** The two categories are not disjoint: a cross-bred record lands in both. */
  lemma CategoriesOverlap(a: Animal)
    requires Lower(a.breed) == "jersey x murrah"
    ensures InCategory(a, "cattle") && InCategory(a, "buffalo")
  {
    CrossbreedNames(Lower(a.breed));
  }

  lemma CrossbreedNames(b: string)
    requires b == "jersey x murrah"
    ensures Contains(b, "jersey") && Contains(b, "murrah")
  {
    assert StartsWith(b, "jersey");
    ContainsAt(b, "murrah");
    assert OccursAt(b, "murrah", 9);
  }

  // ----- Statistics -----

  /** The sum of the collection's milk yields, a missing yield counting 0. */
  function TotalYield(s: seq<Animal>): int {
    if s == [] then 0 else MilkYield(s[0]) + TotalYield(s[1..])
  }

  lemma {:induction false} TotalYieldAppend(s: seq<Animal>, t: seq<Animal>)
    ensures TotalYield(s + t) == TotalYield(s) + TotalYield(t)
  {
    if s == [] {
      assert s + t == t;
    } else {
      assert (s + t)[1..] == s[1..] + t;
      TotalYieldAppend(s[1..], t);
    }
  }

  /** Taking out the record at `k` removes its yield from the total. */
  lemma TotalYieldRemove(t: seq<Animal>, k: int)
    requires 0 <= k < |t|
    ensures TotalYield(t) == TotalYield(t[..k] + t[k + 1..]) + MilkYield(t[k])
  {
    var a, x, b := t[..k], t[k], t[k + 1..];
    assert t == (a + [x]) + b;
    TotalYieldAppend(a + [x], b);
    TotalYieldAppend(a, [x]);
    TotalYieldAppend(a, b);
    assert TotalYield([x]) == MilkYield(x) by {
      assert [x][1..] == [];
    }
  }

  /** Reordering the collection, as the pages' in-place sorts do, leaves the total unchanged. */
  lemma {:induction false} TotalYieldPermutation(s: seq<Animal>, t: seq<Animal>)
    requires multiset(s) == multiset(t)
    ensures TotalYield(s) == TotalYield(t)
    decreases |s|
  {
    if s == [] {
      assert t == [] by { assert |t| == |multiset(t)|; }
    } else {
      var x := s[0];
      MultisetTail(s);
      assert x in multiset(t);
      var k := IndexIn(t, x);
      TotalYieldRemove(t, k);
      MultisetRemove(t, k);
      TotalYieldPermutation(s[1..], t[..k] + t[k + 1..]);
    }
  }

  /** `getMilkYieldStats()`, with the average kept in tenths of a litre. */
  datatype YieldStats = YieldStats(totalAnimals: nat, totalYield: int, averageTenths: int)

  /**
   * The statistics: the record count, the total yield, and the average rounded to one decimal
   * the way `Math.round(avg * 10) / 10` does (to the nearest tenth, halves upward), 0 for an
   * empty collection.
   */
  function Stats(s: seq<Animal>): (r: YieldStats)
    ensures r.totalAnimals == |s|
    ensures r.totalYield == TotalYield(s)
    ensures |s| == 0 ==> r.averageTenths == 0
    ensures |s| > 0 ==> -|s| <= 20 * r.totalYield - 2 * |s| * r.averageTenths < |s|
  {
    var n := |s|;
    var total := TotalYield(s);
    if n == 0 then YieldStats(0, total, 0)
    else
      var avg := (20 * total + n) / (2 * n);
      assert 2 * n * avg <= 20 * total + n < 2 * n * avg + 2 * n by {
        var m := (20 * total + n) % (2 * n);
        assert 20 * total + n == 2 * n * avg + m;
      }
      YieldStats(n, total, avg)
  }

  /** Adding a record raises the total by its yield and the count by one. */
  lemma StatsAfterAdd(s: seq<Animal>, a: Animal)
    ensures Stats(s + [a]).totalAnimals == Stats(s).totalAnimals + 1
    ensures Stats(s + [a]).totalYield == Stats(s).totalYield + MilkYield(a)
  {
    TotalYieldAppend(s, [a]);
  }

  // ----- The store object -----

  /** A fresh array holding `s`. */
  method NewArray(s: seq<Animal>) returns (a: array<Animal>)
    ensures fresh(a) && a[..] == s
  {
    a := new Animal[|s|](i requires 0 <= i < |s| => s[i]);
  }

  /** What start-up loads: the saved collection when there is one, otherwise the sample herd. */
  function StartingHerd(saved: Option<seq<Animal>>, now: int): (s: seq<Animal>)
    ensures saved.Some? ==> s == saved.value
    ensures saved.None? ==> s == SeedAnimals(now)
  {
    if saved.Some? then saved.value else SeedAnimals(now)
  }

  /**
   * The animal store. `animals` is the array the pages see; every add, update and delete
   * replaces it by a new array and rewrites the persisted copy `stored` in full. Two pages sort
   * the current array in place without persisting, so `stored` holds the same records, possibly
   * in another order.
   */
  class Store {
    var animals: array<Animal>
    ghost var stored: seq<Animal>

    ghost predicate Valid()
      reads this, animals
    {
      multiset(stored) == multiset(animals[..])
    }

    /** Start-up: a saved collection is loaded as it is; otherwise the samples are written. */
    constructor Load(saved: Option<seq<Animal>>, now: int)
      ensures Valid() && fresh(animals)
      ensures saved.Some? ==> animals[..] == saved.value
      ensures saved.None? ==> animals[..] == SeedAnimals(now)
      ensures stored == animals[..]
    {
      var initial := StartingHerd(saved, now);
      var a := NewArray(initial);
      animals := a;
      stored := initial;
    }

    /** `addAnimal(data)`: appends the new record and returns it. */
    method Add(data: Patch, now: nat) returns (added: Animal)
      requires Valid()
      modifies this
      ensures Valid() && fresh(animals)
      ensures added == NewRecord(data, old(animals.Length), now)
      ensures animals[..] == old(animals[..]) + [added]
      ensures stored == animals[..]
    {
      var count := animals.Length;
      added := NewRecord(data, count, now);
      var next := animals[..] + [added];
      var a := NewArray(next);
      animals := a;
      stored := next;
    }

    /** `updateAnimal(id, changes)`. */
    method Update(id: string, changes: Patch, now: int)
      requires Valid()
      modifies this
      ensures Valid() && fresh(animals)
      ensures animals[..] == Updated(old(animals[..]), id, changes, now)
      ensures stored == animals[..]
    {
      var next := Updated(animals[..], id, changes, now);
      animals := NewArray(next);
      stored := next;
    }

    /** `deleteAnimal(id)`. */
    method Delete(id: string)
      requires Valid()
      modifies this
      ensures Valid() && fresh(animals)
      ensures animals[..] == Removed(old(animals[..]), id)
      ensures stored == animals[..]
    {
      var next := Removed(animals[..], id);
      animals := NewArray(next);
      stored := next;
    }
  }

  /** The first three generated codes. */
  lemma FirstCodes()
    ensures AnimalCode(1) == "CT001" && AnimalCode(2) == "CT002" && AnimalCode(3) == "CT003"
  {
    OneDigitCode(1);
    OneDigitCode(2);
    OneDigitCode(3);
  }

  /** A one-digit count is padded with two zeros. */
  lemma OneDigitCode(n: nat)
    requires n < 10
    ensures AnimalCode(n) == "CT00" + [DigitChar(n)]
  {
    assert NatToString(n) == [DigitChar(n)];
    assert Repeat('0', 2) == "00" by {
      assert Repeat('0', 0) == [];
    }
  }

  /** Starting from an empty saved collection, three adds are coded CT001, CT002 and CT003. */
  method ThreeAddsScenario(data: Patch, now: nat)
    requires data.animalId.None?
  {
    var store := new Store.Load(Some([]), now);
    var a1 := store.Add(data, now);
    var a2 := store.Add(data, now);
    var a3 := store.Add(data, now);
    FirstCodes();
    assert a1.animalId == "CT001" && a2.animalId == "CT002" && a3.animalId == "CT003";
  }
}
