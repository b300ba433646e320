/**
 * The milk dashboard: the yield statistics, the five best producers, the count of healthy
 * records and the CSV export. The ranking sorts the store's own array in place.
 */
module MilkDashboard {
  import opened Wrappers
  import opened Text
  import opened Seqs
  import opened Animals
  import opened AnimalStore
  import opened Sorting

  /** Highest yield first. */
  const ByYieldDesc := SortSpec(ByMilkYield, false)

  /**
   * The dashboard's comparator, `(b.milkYield || 0) - (a.milkYield || 0)`: positive exactly when
   * `a` belongs after `b` in `ByYieldDesc`, zero exactly on equal yields.
   */
  function YieldComparator(a: Animal, b: Animal): (d: int)
    ensures d > 0 <==> After(ByYieldDesc, a, b)
    ensures d < 0 <==> After(ByYieldDesc, b, a)
    ensures d == 0 <==> MilkYield(a) == MilkYield(b)
  {
    MilkYield(b) - MilkYield(a)
  }

  /** The comparator is consistent: swapping the arguments negates it. */
  lemma YieldComparatorAntisymmetric(a: Animal, b: Animal)
    ensures YieldComparator(a, b) == -YieldComparator(b, a)
  {
  }

  function Min(a: int, b: int): int {
    if a < b then a else b
  }

  /** The five first records of the ranking (fewer when there are fewer records). */
  function Top5(s: seq<Animal>): seq<Animal> {
    var ranked := SortedBy(ByYieldDesc, s);
    SortedByPermutation(ByYieldDesc, s);
    ranked[..Min(5, |s|)]
  }

  /** The ranking holds min(5, n) records. */
  lemma Top5Length(s: seq<Animal>)
    ensures |Top5(s)| == Min(5, |s|)
  {
    SortedByPermutation(ByYieldDesc, s);
  }

  /** A sequence sorted highest yield first has non-increasing yields. */
  lemma RankedYields(r: seq<Animal>)
    requires Sorted(ByYieldDesc, r)
    ensures forall i, j :: 0 <= i < j < |r| ==> MilkYield(r[i]) >= MilkYield(r[j])
  {
    forall i, j | 0 <= i < j < |r|
      ensures MilkYield(r[i]) >= MilkYield(r[j])
    {
      assert !After(ByYieldDesc, r[i], r[j]);
    }
  }

  /** Yields along the ranking do not increase. */
  lemma Top5NonIncreasing(s: seq<Animal>)
    ensures forall i, j :: 0 <= i < j < |Top5(s)| ==> MilkYield(Top5(s)[i]) >= MilkYield(Top5(s)[j])
  {
    SortedBySorted(ByYieldDesc, s);
    RankedYields(SortedBy(ByYieldDesc, s));
    SortedByPermutation(ByYieldDesc, s);
  }

  /** Every record left out of the ranking yields at most as much as its last entry. */
  lemma Top5Rest(s: seq<Animal>, x: Animal)
    requires x in s && x !in Top5(s)
    ensures |Top5(s)| == 5
    ensures MilkYield(x) <= MilkYield(Top5(s)[4])
  {
    var ranked := SortedBy(ByYieldDesc, s);
    SortedByPermutation(ByYieldDesc, s);
    SortedBySorted(ByYieldDesc, s);
    RankedYields(ranked);
    assert x in multiset(ranked);
    var k :| 0 <= k < |ranked| && ranked[k] == x;
    assert k >= Min(5, |s|);
  }

  /** The records of one yield, in order. */
  function YieldIs(y: int): Animal -> bool {
    (a: Animal) => MilkYield(a) == y
  }

  /** Records with equal yields keep their order in the ranking. */
  lemma RankingStable(s: seq<Animal>, y: int)
    ensures Filter(SortedBy(ByYieldDesc, s), YieldIs(y)) == Filter(s, YieldIs(y))
  {
    var ranked := SortedBy(ByYieldDesc, s);
    SortedByStable(ByYieldDesc, s, Num(y));
    FilterCongruent(ranked, HasKey(ByMilkYield, Num(y)), YieldIs(y));
    FilterCongruent(s, HasKey(ByMilkYield, Num(y)), YieldIs(y));
  }

  /**
   * The comparator is consistent and the engine's sort is stable, so the engine has only one
   * possible result: any order with non-increasing yields that keeps each yield's records in
   * their original order is the model's ranking.
   */
  lemma RankingIsTheStableSort(s: seq<Animal>, r: seq<Animal>)
    requires forall i, j :: 0 <= i < j < |r| ==> MilkYield(r[i]) >= MilkYield(r[j])
    requires forall y :: Filter(r, YieldIs(y)) == Filter(s, YieldIs(y))
    ensures r == SortedBy(ByYieldDesc, s)
  {
    forall k
      ensures Filter(r, HasKey(ByMilkYield, k)) == Filter(s, HasKey(ByMilkYield, k))
    {
      if k.Num? {
        assert Filter(r, YieldIs(k.n)) == Filter(s, YieldIs(k.n));
        FilterCongruent(r, HasKey(ByMilkYield, k), YieldIs(k.n));
        FilterCongruent(s, HasKey(ByMilkYield, k), YieldIs(k.n));
      } else {
        FilterNone(r, HasKey(ByMilkYield, k));
        FilterNone(s, HasKey(ByMilkYield, k));
      }
    }
    StableSortIsUnique(ByYieldDesc, s, r);
  }

  /** Reordering does not change the statistics shown beside the ranking. */
  lemma RankingKeepsStats(s: seq<Animal>)
    ensures Stats(SortedBy(ByYieldDesc, s)) == Stats(s)
  {
    SortedByPermutation(ByYieldDesc, s);
    TotalYieldPermutation(SortedBy(ByYieldDesc, s), s);
  }

  /**
   * `topAnimals`: sorts the store's array in place, highest yield first, and takes its first
   * five records. The store keeps the same records.
   */
  method TopAnimals(store: Store) returns (top: seq<Animal>)
    requires store.Valid()
    modifies store.animals
    ensures store.Valid()
    ensures store.animals[..] == SortedBy(ByYieldDesc, old(store.animals[..]))
    ensures top == Top5(old(store.animals[..]))
  {
    ghost var before := store.animals[..];
    SortInPlace(store.animals, ByYieldDesc);
    SortedByPermutation(ByYieldDesc, before);
    top := store.animals[..Min(5, store.animals.Length)];
  }

  // ----- Healthy count -----

  /** Health status exactly 'Normal'. */
  predicate IsHealthy(a: Animal) {
    a.health.Some? && a.health.value.status == Some("Normal")
  }

  /** The "healthy" card: how many records have status exactly 'Normal'. */
  function HealthyCount(s: seq<Animal>): (n: nat)
    ensures n <= |s|
    ensures n == |s| <==> forall i :: 0 <= i < |s| ==> IsHealthy(s[i])
    ensures n == |set i | 0 <= i < |s| && IsHealthy(s[i])|
  {
    FilterCountAll(s, IsHealthy);
    var p: Animal -> bool := IsHealthy;
    FilterCountIndices(s, p);
    assert (set i | 0 <= i < |s| && IsHealthy(s[i])) == Passing(s, p);
    |Filter(s, p)|
  }

  // ----- Export -----

  const MilkHeader: seq<string> := ["Animal ID", "Breed", "Daily Milk (L)", "Status"]

  /** The status cell: the health status, or 'Normal' when it is missing or empty. */
  function StatusCell(a: Animal): (cell: string)
    ensures cell != ""
    ensures a.health.Some? && a.health.value.status.Some? && a.health.value.status.value != "" ==>
      cell == a.health.value.status.value
    ensures !(a.health.Some? && a.health.value.status.Some? && a.health.value.status.value != "") ==>
      cell == "Normal"
  {
    if a.health.Some? && a.health.value.status.Some? && a.health.value.status.value != "" then
      a.health.value.status.value
    else "Normal"
  }

  /** One exported row: code, breed, yield (missing as 0), status. */
  function MilkRow(a: Animal): (row: seq<string>)
    ensures |row| == |MilkHeader|
    ensures row[0] == a.animalId && row[1] == a.breed && row[3] == StatusCell(a)
    ensures row[2] == IntToString(MilkYield(a))
    ensures a.milkYield.None? ==> row[2] == "0"
    ensures MilkYield(a) >= 0 ==> ParseLeadingInt(row[2]) == MilkYield(a)
  {
    YieldParsesBack(MilkYield(a));
    [a.animalId, a.breed, IntToString(MilkYield(a)), StatusCell(a)]
  }

  /** A written yield that is not negative reads back as itself. */
  lemma YieldParsesBack(y: int)
    ensures y >= 0 ==> ParseLeadingInt(IntToString(y)) == y
  {
    if y >= 0 {
      ParseNatToString(y);
    }
  }

  function MilkTable(s: seq<Animal>): (rows: seq<seq<string>>)
    ensures |rows| == |s| + 1 && rows[0] == MilkHeader
    ensures forall i :: 0 <= i < |s| ==> rows[i + 1] == MilkRow(s[i])
  {
    var body := seq(|s|, i requires 0 <= i < |s| => MilkRow(s[i]));
    assert forall i :: 0 <= i < |s| ==> ([MilkHeader] + body)[i + 1] == body[i];
    [MilkHeader] + body
  }

  /** `exportData`: the header and one line per record of the collection, in its current order. */
  function MilkCsv(s: seq<Animal>): string {
    Csv(MilkTable(s))
  }

  /**
   * Reading the export back gives the header and, line by line, each record's row, as long as
   * no code, breed or status holds a comma or a newline.
   */
  lemma MilkCsvRoundTrip(s: seq<Animal>)
    requires forall i :: 0 <= i < |s| ==>
      PlainCell(s[i].animalId) && PlainCell(s[i].breed) && PlainCell(StatusCell(s[i]))
    ensures |Split(MilkCsv(s), '\n')| == |s| + 1
    ensures Split(Split(MilkCsv(s), '\n')[0], ',') == MilkHeader
    ensures forall i :: 0 <= i < |s| ==> Split(Split(MilkCsv(s), '\n')[i + 1], ',') == MilkRow(s[i])
  {
    var rows := MilkTable(s);
    forall i, j | 0 <= i < |rows| && 0 <= j < |rows[i]|
      ensures PlainCell(rows[i][j])
    {
      if i > 0 {
        var a := s[i - 1];
        assert rows[i] == MilkRow(a);
        if j == 2 {
          IntToStringPlain(MilkYield(a));
        }
      }
    }
    CsvRoundTrip(rows);
  }

  /** The download name of the export. */
  function MilkFileName(isoNow: string): string {
    CsvFileName("milk-data-", isoNow)
  }
}
