/**
 * The animal record, the partial record that add and update merge into it, and the five
 * built-in sample records the store starts from when nothing is saved.
 */
module Animals {
  import opened Wrappers
  import opened Text

  /** Dates are kept as millisecond timestamps; `None` is a missing or unparsable date. */
  type Timestamp = Option<int>

  /** The length of a day in milliseconds. */
  const DAY_MS: int := 86400000

  // ----- Days until a date -----

  /**
   * `Math.ceil((date - now) / one day)`: whole days, rounded up, from `now` to `date`; none when
   * the date is missing or invalid, where the page computes NaN.
   */
  function DaysUntil(date: Timestamp, now: int): (d: Option<int>)
    ensures d.None? <==> date.None?
    ensures d.Some? ==> (d.value - 1) * DAY_MS < date.value - now <= d.value * DAY_MS
  {
    if date.None? then None else Some(-((now - date.value) / DAY_MS))
  }

  /** At most `n` days away means the date is at most `n` whole days after `now`. */
  lemma DaysUntilAtMost(date: int, now: int, n: int)
    ensures DaysUntil(Some(date), now).value <= n <==> date <= now + n * DAY_MS
  {
    var d := DaysUntil(Some(date), now).value;
    if d <= n {
      assert d * DAY_MS <= n * DAY_MS;
    } else {
      assert (d - 1) * DAY_MS >= n * DAY_MS;
    }
  }

  // ----- Search by breed or code -----

  /** The breeding and health pages' search: lower-cased breed or code contains the lower-cased query. */
  predicate MatchesBreedOrCode(a: Animal, query: string) {
    Contains(Lower(a.breed), Lower(query)) || Contains(Lower(a.animalId), Lower(query))
  }

  /** The empty query matches every record. */
  lemma EmptyQueryMatches(a: Animal)
    ensures MatchesBreedOrCode(a, "")
  {
    assert Lower("") == "";
    assert StartsWith(Lower(a.breed), "");
  }

  // ----- Records -----

  datatype Traits = Traits(weight: string, height: string, vaccination: string, insurance: string)

  datatype Breeding = Breeding(pregnancyStatus: Option<string>, nextMatingDue: Timestamp)

  datatype Vaccination = Vaccination(vaccine: string, nextDue: Timestamp)

  datatype Health = Health(
    status: Option<string>,
    preventiveMeasures: Option<seq<string>>,
    vaccinationSchedule: Option<seq<Vaccination>>,
    healthAlerts: Option<seq<string>>,
    veterinaryContact: Option<string>)

  datatype Animal = Animal(
    id: string,
    animalId: string,
    breed: string,
    color: string,
    horns: string,
    milkType: string,
    age: string,
    owner: string,
    milkYield: Option<int>,
    lastUpdated: int,
    image: string,
    traits: Option<Traits>,
    breeding: Option<Breeding>,
    health: Option<Health>)

  /** A partial record: the fields an add or update request supplies. */
  datatype Patch = Patch(
    id: Option<string>,
    animalId: Option<string>,
    breed: Option<string>,
    color: Option<string>,
    horns: Option<string>,
    milkType: Option<string>,
    age: Option<string>,
    owner: Option<string>,
    milkYield: Option<int>,
    lastUpdated: Option<int>,
    image: Option<string>,
    traits: Option<Traits>,
    breeding: Option<Breeding>,
    health: Option<Health>)

  const NoChanges := Patch(None, None, None, None, None, None, None, None, None, None, None, None, None, None)

  /** `animal.milkYield || 0`. */
  function MilkYield(a: Animal): int {
    a.milkYield.GetOr(0)
  }

  /** `{ ...a, ...p }`: every field the patch supplies replaces the record's own. */
  function Merge(a: Animal, p: Patch): Animal {
    Animal(
      p.id.GetOr(a.id),
      p.animalId.GetOr(a.animalId),
      p.breed.GetOr(a.breed),
      p.color.GetOr(a.color),
      p.horns.GetOr(a.horns),
      p.milkType.GetOr(a.milkType),
      p.age.GetOr(a.age),
      p.owner.GetOr(a.owner),
      if p.milkYield.Some? then p.milkYield else a.milkYield,
      p.lastUpdated.GetOr(a.lastUpdated),
      p.image.GetOr(a.image),
      if p.traits.Some? then p.traits else a.traits,
      if p.breeding.Some? then p.breeding else a.breeding,
      if p.health.Some? then p.health else a.health)
  }

  /** The patch that applies `p` and then `q`: `q`'s fields win. */
  function Then(p: Patch, q: Patch): Patch {
    Patch(
      if q.id.Some? then q.id else p.id,
      if q.animalId.Some? then q.animalId else p.animalId,
      if q.breed.Some? then q.breed else p.breed,
      if q.color.Some? then q.color else p.color,
      if q.horns.Some? then q.horns else p.horns,
      if q.milkType.Some? then q.milkType else p.milkType,
      if q.age.Some? then q.age else p.age,
      if q.owner.Some? then q.owner else p.owner,
      if q.milkYield.Some? then q.milkYield else p.milkYield,
      if q.lastUpdated.Some? then q.lastUpdated else p.lastUpdated,
      if q.image.Some? then q.image else p.image,
      if q.traits.Some? then q.traits else p.traits,
      if q.breeding.Some? then q.breeding else p.breeding,
      if q.health.Some? then q.health else p.health)
  }

  /** Merging nothing changes nothing; merging twice is merging once; two merges compose. */
  lemma MergeLaws(a: Animal, p: Patch, q: Patch)
    ensures Merge(a, NoChanges) == a
    ensures Merge(Merge(a, p), p) == Merge(a, p)
    ensures Merge(Merge(a, p), q) == Merge(a, Then(p, q))
  {
  }

  /** The generated code "CT" followed by `n` padded with zeros to three digits. */
  function AnimalCode(n: nat): (code: string)
    ensures |code| >= 5 && code[..2] == "CT" && AllDigits(code[2..])
    ensures DigitsValue(code[2..]) == n
  {
    var digits := NatToString(n);
    var padded := PadStart(digits, 3, '0');
    assert padded == Repeat('0', |padded| - |digits|) + digits;
    LeadingZerosValue(|padded| - |digits|, digits);
    NatToStringRoundTrip(n);
    assert ("CT" + padded)[2..] == padded;
    "CT" + padded
  }

  /**
   * The padding goes to three digits and no further: a code longer than "CT" plus three digits
   * starts its digits with a non-zero one, so it is "CT" followed by `n` written out.
   */
  lemma AnimalCodePadding(n: nat)
    ensures |AnimalCode(n)| > 5 ==> AnimalCode(n)[2] != '0' && AnimalCode(n)[2..] == NatToString(n)
  {
    var digits := NatToString(n);
    var padded := PadStart(digits, 3, '0');
    assert AnimalCode(n) == "CT" + padded;
    if |padded| > 3 {
      assert padded == digits;
      assert ("CT" + padded)[2..] == padded;
    }
  }

  /** Distinct sequence numbers give distinct codes. */
  lemma AnimalCodeInjective(m: nat, n: nat)
    requires AnimalCode(m) == AnimalCode(n)
    ensures m == n
  {
  }

  /** A record carrying `p` (other than `lastUpdated`) already: merging `p` again changes nothing. */
  predicate Carries(a: Animal, p: Patch) {
    Merge(a, p.(lastUpdated := None)) == a
  }

  /**
   * The record `addAnimal(data)` creates when the collection holds `count` records: a
   * time-based `id` and the code for `count + 1` unless the caller supplies them, every other
   * supplied field as given (a field not supplied is empty), and `lastUpdated` set to `now`
   * whatever the caller supplied.
   */
  function NewRecord(data: Patch, count: nat, now: nat): (r: Animal)
    ensures r.lastUpdated == now
    ensures Carries(r, data)
    ensures data.id.None? ==> r.id == NatToString(now)
    ensures data.animalId.None? ==> r.animalId == AnimalCode(count + 1)
  {
    var generated := Animal(NatToString(now), AnimalCode(count + 1), "", "", "", "", "", "", None, now, "",
                            None, None, None);
    StampedCarries(generated, data, now);
    Merge(generated, data).(lastUpdated := now)
  }

  /** A merge stamped with a new time still carries the patch. */
  lemma StampedCarries(a: Animal, p: Patch, now: int)
    ensures Carries(Merge(a, p).(lastUpdated := now), p)
  {
  }

  /** `{ ...a, ...changes, lastUpdated: now }`, the record `updateAnimal` writes. */
  function Refreshed(a: Animal, changes: Patch, now: int): (r: Animal)
    ensures r.lastUpdated == now
    ensures Carries(r, changes)
    ensures r.(lastUpdated := a.lastUpdated) == Merge(a, changes.(lastUpdated := None))
  {
    Merge(a, changes).(lastUpdated := now)
  }

  // ----- The built-in sample records -----

  function SampleHealth(alerts: seq<string>, measures: seq<string>, schedule: seq<Vaccination>, vet: string): Health {
    Health(Some("Normal"), Some(measures), Some(schedule), Some(alerts), Some(vet))
  }

  /** The five sample records written when nothing is saved; every one is stamped with `now`. */
  function SeedAnimals(now: int): (s: seq<Animal>)
    ensures |s| == 5
    ensures forall i, j :: 0 <= i < j < |s| ==> s[i].id != s[j].id
  {
    [
      Animal("1", "CT001", "Holstein Friesian", "Black and White", "No", "High Yield", "3 years", "Farmer 1234",
        Some(25), now, "/api/placeholder/200/200",
        Some(Traits("450 kg", "140 cm", "Up to date", "Active")),
        Some(Breeding(Some("Not Pregnant"), Some(1710460800000))),
        Some(SampleHealth([],
          ["Regular vaccination", "Clean water supply", "Balanced nutrition", "Regular health checkups"],
          [Vaccination("FMD", Some(1721001600000)), Vaccination("Brucellosis", Some(1733011200000))],
          "Dr. Rajesh Kumar - +91 9876543210"))),
      Animal("2", "BF002", "Murrah Buffalo", "Black", "Yes", "High Fat", "4 years", "Farmer 1234",
        Some(18), now, "/api/placeholder/200/200",
        Some(Traits("550 kg", "135 cm", "Due in 2 months", "Active")),
        Some(Breeding(Some("Pregnant (5 months)"), Some(1717977600000))),
        Some(SampleHealth(["Vaccination due in 2 months"],
          ["Extra nutrition for pregnancy", "Regular veterinary checkups", "Clean and comfortable shelter",
           "Avoid stress and overexertion"],
          [Vaccination("FMD", Some(1714521600000)), Vaccination("Anthrax", Some(1728950400000))],
          "Dr. Priya Sharma - +91 9876543211"))),
      Animal("3", "JR003", "Jersey", "Light Brown", "No", "High Butterfat", "3 years", "Farmer 1234",
        Some(20), now, "/api/placeholder/200/200",
        Some(Traits("350 kg", "120 cm", "Up to date", "Active")),
        Some(Breeding(Some("Not Pregnant"), Some(1716163200000))),
        Some(SampleHealth([],
          ["Regular vaccination", "Clean water supply", "High-quality feed", "Regular health checkups",
           "Protection from cold weather"],
          [Vaccination("FMD", Some(1720569600000)), Vaccination("Brucellosis", Some(1731628800000))],
          "Dr. Amit Singh - +91 9876543212"))),
      Animal("4", "SW004", "Sahiwal", "Reddish Brown", "Small", "Medium Yield", "4 years", "Farmer 1234",
        Some(15), now, "/api/placeholder/200/200",
        Some(Traits("400 kg", "130 cm", "Up to date", "Active")),
        Some(Breeding(Some("Not Pregnant"), Some(1714003200000))),
        Some(SampleHealth([],
          ["Regular vaccination", "Clean water supply", "Heat-resistant shelter", "Regular health checkups",
           "Drought-resistant feeding"],
          [Vaccination("FMD", Some(1718841600000)), Vaccination("Anthrax", Some(1732924800000))],
          "Dr. Sunita Reddy - +91 9876543213"))),
      Animal("5", "GR005", "Gir", "White with Red Spots", "Curved", "High Yield", "3 years", "Farmer 1234",
        Some(22), now, "/api/placeholder/200/200",
        Some(Traits("425 kg", "135 cm", "Due in 1 month", "Active")),
        Some(Breeding(Some("Not Pregnant"), Some(1709078400000))),
        Some(SampleHealth(["Vaccination due in 1 month"],
          ["Regular vaccination", "Clean water supply", "Balanced nutrition", "Regular health checkups",
           "Proper grooming"],
          [Vaccination("FMD", Some(1717200000000)), Vaccination("Brucellosis", Some(1729382400000))],
          "Dr. Vikram Patel - +91 9876543214")))
    ]
  }
}
