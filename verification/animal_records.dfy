/**
 * The records page: a view over the store with a search box, a category filter and a sortable
 * column, plus the CSV export of what it shows.
 */
module AnimalRecords {
  import opened Wrappers
  import opened Text
  import opened Seqs
  import opened Animals
  import opened AnimalStore
  import opened Sorting

  // ----- Selection -----

  /** The page's own category test: unlike the store's, 'cattle' also takes breeds naming "cattle". */
  predicate InViewCategory(a: Animal, filter: string) {
    if filter == "cattle" then IsCattleBreed(a) || Contains(Lower(a.breed), "cattle")
    else if filter == "buffalo" then IsBuffaloBreed(a)
    else true
  }

  /** The page keeps every record the store's own category filter keeps, and maybe more. */
  lemma ViewCategoryWidens(s: seq<Animal>, filter: string)
    requires filter != "all"
    ensures |FilterByCategory(s, filter)| <= |Categorized(s, filter)|
  {
    var p := (a: Animal) => InCategory(a, filter);
    var q := (a: Animal) => InViewCategory(a, filter);
    if filter == "cattle" {
      FilterCongruent(s, IsCattleBreed, p);
    } else if filter == "buffalo" {
      FilterCongruent(s, IsBuffaloBreed, p);
      FilterCongruent(s, q, p);
    } else {
      FilterAll(s, q);
    }
    FilterNone(s, (a: Animal) => false);
    FilterDisjointCount(s, p, (a: Animal) => false, q);
  }

  /** The category step: 'all' keeps the sequence; anything else keeps the records in the category. */
  function Categorized(s: seq<Animal>, filter: string): (r: seq<Animal>)
    ensures filter == "all" ==> r == s
    ensures IsSubsequence(r, s)
    ensures forall i :: 0 <= i < |r| ==> InViewCategory(r[i], filter)
    ensures forall i :: 0 <= i < |s| && InViewCategory(s[i], filter) ==> multiset(r)[s[i]] == multiset(s)[s[i]]
  {
    if filter == "all" then
      SubsequenceRefl(s);
      s
    else
      var p := (a: Animal) => InViewCategory(a, filter);
      FilterCounts(s, p);
      Filter(s, p)
  }

  /** The records the page shows before sorting: the search result, then the category step. */
  function Selection(s: seq<Animal>, query: string, filter: string): (r: seq<Animal>)
    ensures query == "" && filter == "all" ==> r == s
    ensures forall i :: 0 <= i < |r| ==>
      (query == "" || MatchesQuery(r[i], Lower(query))) && InViewCategory(r[i], filter)
    ensures IsSubsequence(r, s)
    ensures forall i :: (0 <= i < |s| && (query == "" || MatchesQuery(s[i], Lower(query))) &&
                         InViewCategory(s[i], filter)) ==> multiset(r)[s[i]] == multiset(s)[s[i]]
  {
    var found := Search(s, query);
    var r := Categorized(found, filter);
    SubsequenceTrans(r, found, s);
    SelectionSteps(s, found, r, query, filter);
    r
  }

  /** The search step followed by the category step keeps the tests and every count. */
  lemma SelectionSteps(s: seq<Animal>, found: seq<Animal>, r: seq<Animal>, query: string, filter: string)
    requires found == Search(s, query) && r == Categorized(found, filter)
    ensures forall i :: 0 <= i < |r| ==>
      (query == "" || MatchesQuery(r[i], Lower(query))) && InViewCategory(r[i], filter)
    ensures forall i :: (0 <= i < |s| && (query == "" || MatchesQuery(s[i], Lower(query))) &&
                         InViewCategory(s[i], filter)) ==> multiset(r)[s[i]] == multiset(s)[s[i]]
  {
    forall i | 0 <= i < |r|
      ensures (query == "" || MatchesQuery(r[i], Lower(query))) && InViewCategory(r[i], filter)
    {
      SelectionPasses(s, found, r, query, filter, i);
    }
    forall i | 0 <= i < |s| && (query == "" || MatchesQuery(s[i], Lower(query))) && InViewCategory(s[i], filter)
      ensures multiset(r)[s[i]] == multiset(s)[s[i]]
    {
      SelectionCount(s, found, r, query, filter, s[i]);
    }
  }

  /** Every record left after both steps passes both tests. */
  lemma SelectionPasses(s: seq<Animal>, found: seq<Animal>, r: seq<Animal>, query: string, filter: string, i: int)
    requires found == Search(s, query) && r == Categorized(found, filter)
    requires 0 <= i < |r|
    ensures (query == "" || MatchesQuery(r[i], Lower(query))) && InViewCategory(r[i], filter)
  {
    var j := IndexIn(found, r[i]);
    assert query == "" || MatchesQuery(found[j], Lower(query));
  }

  /** A record passing both steps keeps its count through each of them. */
  lemma SelectionCount(s: seq<Animal>, found: seq<Animal>, r: seq<Animal>, query: string, filter: string, x: Animal)
    requires found == Search(s, query) && r == Categorized(found, filter)
    requires x in s && (query == "" || MatchesQuery(x, Lower(query))) && InViewCategory(x, filter)
    ensures multiset(r)[x] == multiset(s)[x]
  {
    var i := IndexIn(s, x);
    assert multiset(found)[x] == multiset(s)[x];
    assert x in multiset(found);
    var j := IndexIn(found, x);
    assert multiset(r)[found[j]] == multiset(found)[found[j]];
  }

  // ----- Sorting -----

  /** The column picked by `sortBy`; any other name sorts by last update. */
  function FieldOf(sortBy: string): (f: SortField)
    ensures f == ByBreed <==> sortBy == "breed"
    ensures f == ByMilkYield <==> sortBy == "milkYield"
    ensures f == ByAge <==> sortBy == "age"
  {
    if sortBy == "breed" then ByBreed
    else if sortBy == "milkYield" then ByMilkYield
    else if sortBy == "age" then ByAge
    else ByLastUpdated
  }

  /** Ascending for "asc", descending for anything else. */
  function SpecOf(sortBy: string, sortOrder: string): SortSpec {
    SortSpec(FieldOf(sortBy), sortOrder == "asc")
  }

  /**
   * The page's comparator: 1 or -1, never 0. It is positive exactly when `After` holds, so the
   * sort moves a record behind the ones with greater keys (ascending) or smaller keys (descending).
   */
  function Compare(sortBy: string, sortOrder: string, a: Animal, b: Animal): (c: int)
    ensures c == 1 || c == -1
    ensures c > 0 <==> After(SpecOf(sortBy, sortOrder), a, b)
  {
    var ka, kb := KeyOf(FieldOf(sortBy), a), KeyOf(FieldOf(sortBy), b);
    if sortOrder == "asc" then (if KeyLess(kb, ka) then 1 else -1)
    else (if KeyLess(ka, kb) then 1 else -1)
  }

  /**
   * The comparator is not consistent: for two records with the same key it answers -1 both ways
   * round, so the order of equal keys is left to the engine.
   */
  lemma CompareTiesInconsistent(sortBy: string, sortOrder: string, a: Animal, b: Animal)
    requires KeyOf(FieldOf(sortBy), a) == KeyOf(FieldOf(sortBy), b)
    ensures Compare(sortBy, sortOrder, a, b) == -1 && Compare(sortBy, sortOrder, b, a) == -1
  {
    SameKeyIffTied(SpecOf(sortBy, sortOrder), a, b);
  }

  /** A consistent comparator: 0 on equal keys, and antisymmetric. */
  function CompareConsistent(sortBy: string, sortOrder: string, a: Animal, b: Animal): (c: int)
    ensures c > 0 <==> After(SpecOf(sortBy, sortOrder), a, b)
    ensures c < 0 <==> After(SpecOf(sortBy, sortOrder), b, a)
    ensures c == 0 <==> KeyOf(FieldOf(sortBy), a) == KeyOf(FieldOf(sortBy), b)
  {
    var spec := SpecOf(sortBy, sortOrder);
    SameKeyIffTied(spec, a, b);
    if After(spec, a, b) then AfterAsymmetric(spec, a, b); 1
    else if After(spec, b, a) then -1
    else 0
  }

  lemma CompareConsistentAntisymmetric(sortBy: string, sortOrder: string, a: Animal, b: Animal)
    ensures CompareConsistent(sortBy, sortOrder, a, b) == -CompareConsistent(sortBy, sortOrder, b, a)
  {
    var spec := SpecOf(sortBy, sortOrder);
    if After(spec, a, b) {
      AfterAsymmetric(spec, a, b);
    }
  }

  /** `handleSort`: the same column flips the direction; a new column starts descending. */
  function NextSort(sortBy: string, sortOrder: string, newSortBy: string): (r: (string, string))
    ensures newSortBy != sortBy ==> r == (newSortBy, "desc")
    ensures newSortBy == sortBy ==> r.0 == sortBy && (r.1 == "asc" <==> sortOrder != "asc")
    ensures r.1 == "asc" || r.1 == "desc"
  {
    if sortBy == newSortBy then (sortBy, if sortOrder == "asc" then "desc" else "asc")
    else (newSortBy, "desc")
  }

  /** Choosing the shown column reverses the direction of the sort. */
  lemma SameColumnFlips(sortBy: string, sortOrder: string)
    ensures var (b, o) := NextSort(sortBy, sortOrder, sortBy);
      SpecOf(b, o) == SpecOf(sortBy, sortOrder).(ascending := !SpecOf(sortBy, sortOrder).ascending)
  {
  }

  /** Choosing the same column twice restores the direction, once it is 'asc' or 'desc'. */
  lemma SameColumnTwice(sortBy: string, sortOrder: string)
    requires sortOrder == "asc" || sortOrder == "desc"
    ensures var (b, o) := NextSort(sortBy, sortOrder, sortBy);
      NextSort(b, o, sortBy) == (sortBy, sortOrder)
  {
  }

  // ----- The page's state -----

  /**
   * The first two steps of the effect: the store's own array when there is no query and every
   * category is shown, otherwise a new array holding the selection.
   */
  method SelectionArray(store: Store, query: string, filter: string) returns (result: array<Animal>)
    ensures result[..] == Selection(store.animals[..], query, filter)
    ensures query == "" && filter == "all" ==> result == store.animals
    ensures !(query == "" && filter == "all") ==> fresh(result)
  {
    result := store.animals;
    if query != "" {
      result := NewArray(Search(result[..], query));
    }
    if filter != "all" {
      result := NewArray(Categorized(result[..], filter));
    }
  }

  /** The records page. `filteredAnimals` is what it shows. */
  class RecordsView {
    var searchQuery: string
    var filter: string
    var sortBy: string
    var sortOrder: string
    var filteredAnimals: array<Animal>

    /** Opening the page: no query, every category, newest first, showing the store's array. */
    constructor Open(store: Store)
      ensures searchQuery == "" && filter == "all"
      ensures sortBy == "lastUpdated" && sortOrder == "desc"
      ensures filteredAnimals == store.animals
    {
      searchQuery := "";
      filter := "all";
      sortBy := "lastUpdated";
      sortOrder := "desc";
      filteredAnimals := store.animals;
    }

    /** `handleSearch`. */
    method SetQuery(query: string)
      modifies this
      ensures searchQuery == query
      ensures filter == old(filter) && sortBy == old(sortBy) && sortOrder == old(sortOrder)
      ensures filteredAnimals == old(filteredAnimals)
    {
      searchQuery := query;
    }

    /** `handleFilterChange`. */
    method SetFilter(newFilter: string)
      modifies this
      ensures filter == newFilter
      ensures searchQuery == old(searchQuery) && sortBy == old(sortBy) && sortOrder == old(sortOrder)
      ensures filteredAnimals == old(filteredAnimals)
    {
      filter := newFilter;
    }

    /** `handleSort`. */
    method HandleSort(newSortBy: string)
      modifies this
      ensures (sortBy, sortOrder) == NextSort(old(sortBy), old(sortOrder), newSortBy)
      ensures searchQuery == old(searchQuery) && filter == old(filter)
      ensures filteredAnimals == old(filteredAnimals)
    {
      if sortBy == newSortBy {
        sortOrder := if sortOrder == "asc" then "desc" else "asc";
      } else {
        sortBy := newSortBy;
        sortOrder := "desc";
      }
    }

    /**
     * The effect that recomputes the shown records. With no query and every category it sorts
     * the store's own array in place and shows that array; otherwise it sorts a new one and the
     * store is untouched. Either way the store keeps the same records.
     */
    method Refresh(store: Store)
      requires store.Valid()
      modifies this, store.animals
      ensures store.Valid()
      ensures multiset(filteredAnimals[..]) == multiset(Selection(old(store.animals[..]), searchQuery, filter))
      ensures Sorted(SpecOf(sortBy, sortOrder), filteredAnimals[..])
      ensures filteredAnimals[..] ==
        SortedBy(SpecOf(sortBy, sortOrder), Selection(old(store.animals[..]), searchQuery, filter))
      ensures searchQuery == "" && filter == "all" ==> filteredAnimals == store.animals
      ensures !(searchQuery == "" && filter == "all") ==>
        fresh(filteredAnimals) && store.animals[..] == old(store.animals[..])
      ensures searchQuery == old(searchQuery) && filter == old(filter)
      ensures sortBy == old(sortBy) && sortOrder == old(sortOrder)
    {
      var result := SelectionArray(store, searchQuery, filter);
      ghost var before := result[..];
      SortInPlace(result, SpecOf(sortBy, sortOrder));
      SortedByPermutation(SpecOf(sortBy, sortOrder), before);
      SortedBySorted(SpecOf(sortBy, sortOrder), before);
      filteredAnimals := result;
    }
  }

  // ----- Export -----

  const RecordsHeader: seq<string> :=
    ["Animal ID", "Breed", "Color", "Age", "Owner", "Milk Yield (L)", "Last Updated"]

  /** A yield as `join` writes it: the number, or nothing when it is missing. */
  function YieldCell(y: Option<int>): (cell: string)
    ensures y.None? <==> cell == ""
  {
    if y.Some? then IntToString(y.value) else ""
  }

  /** A written yield reads back as the same number. */
  lemma YieldCellRoundTrip(n: nat)
    ensures ParseLeadingInt(YieldCell(Some(n))) == n
  {
    ParseNatToString(n);
  }

  /** One exported row; `localeDate` is the browser's date rendering. */
  function RecordRow(a: Animal, localeDate: int -> string): (row: seq<string>)
    ensures |row| == |RecordsHeader|
    ensures row[0] == a.animalId && row[1] == a.breed && row[2] == a.color
    ensures row[3] == a.age && row[4] == a.owner && row[6] == localeDate(a.lastUpdated)
    ensures row[5] == YieldCell(a.milkYield)
  {
    [a.animalId, a.breed, a.color, a.age, a.owner, YieldCell(a.milkYield), localeDate(a.lastUpdated)]
  }

  function RecordTable(shown: seq<Animal>, localeDate: int -> string): (rows: seq<seq<string>>)
    ensures |rows| == |shown| + 1 && rows[0] == RecordsHeader
    ensures forall i :: 0 <= i < |shown| ==> rows[i + 1] == RecordRow(shown[i], localeDate)
  {
    var body := seq(|shown|, i requires 0 <= i < |shown| => RecordRow(shown[i], localeDate));
    assert forall i :: 0 <= i < |shown| ==> ([RecordsHeader] + body)[i + 1] == body[i];
    [RecordsHeader] + body
  }

  /** `exportData`: the header and one line per shown record. */
  function ExportCsv(shown: seq<Animal>, localeDate: int -> string): string {
    Csv(RecordTable(shown, localeDate))
  }

  /** A record whose text cells hold no comma or newline exports to plain cells. */
  predicate Exportable(a: Animal, localeDate: int -> string) {
    PlainCell(a.animalId) && PlainCell(a.breed) && PlainCell(a.color) && PlainCell(a.age) &&
    PlainCell(a.owner) && PlainCell(localeDate(a.lastUpdated))
  }

  /**
   * Reading the export back gives the header and, line by line, the shown records' cells in the
   * page's order, as long as no cell holds a comma or a newline.
   */
  lemma ExportRoundTrip(shown: seq<Animal>, localeDate: int -> string)
    requires forall i :: 0 <= i < |shown| ==> Exportable(shown[i], localeDate)
    ensures |Split(ExportCsv(shown, localeDate), '\n')| == |shown| + 1
    ensures Split(Split(ExportCsv(shown, localeDate), '\n')[0], ',') == RecordsHeader
    ensures forall i :: 0 <= i < |shown| ==>
      Split(Split(ExportCsv(shown, localeDate), '\n')[i + 1], ',') == RecordRow(shown[i], localeDate)
  {
    var rows := RecordTable(shown, localeDate);
    forall i, j | 0 <= i < |rows| && 0 <= j < |rows[i]|
      ensures PlainCell(rows[i][j])
    {
      if i > 0 {
        var a := shown[i - 1];
        if j == 5 {
          if a.milkYield.Some? {
            IntToStringPlain(a.milkYield.value);
          }
        }
      }
    }
    CsvRoundTrip(rows);
  }

  /** The download name of the export. */
  function ExportFileName(isoNow: string): string {
    CsvFileName("animal-records-", isoNow)
  }

  // ----- The record opened from the address -----

  /** The record named by the `animal` parameter; none when the parameter is absent or empty. */
  function SelectedAnimal(s: seq<Animal>, param: Option<string>): (r: Option<Animal>)
    ensures param.None? || param == Some("") ==> r.None?
    ensures r.Some? ==> r.value in s && r.value.id == param.value
    ensures r.Some? ==> exists i :: 0 <= i < |s| && s[i] == r.value && FirstWithId(s, param.value, i)
    ensures param.Some? && param.value != "" && (exists i :: 0 <= i < |s| && s[i].id == param.value) ==> r.Some?
  {
    if param.None? || param.value == "" then None else FindById(s, param.value)
  }
}
