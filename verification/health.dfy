/**
 * The health page: the searchable health filter, the per-record vaccination summary, the
 * per-vaccine badge, the overview totals and the shortened contact and measure lists.
 */
module HealthManagement {
  import opened Wrappers
  import opened Text
  import opened Seqs
  import opened Animals
  import MilkDashboard

  // ----- Filter -----

  predicate HasStatus(a: Animal, status: string) {
    a.health.Some? && a.health.value.status == Some(status)
  }

  /** The alerts of a record; none when missing. */
  function Alerts(a: Animal): seq<string> {
    if a.health.Some? && a.health.value.healthAlerts.Some? then a.health.value.healthAlerts.value else []
  }

  /** The health filter: 'normal' and 'diseased' by exact status, 'alerts' by a non-empty list. */
  predicate ByHealth(a: Animal, filter: string) {
    if filter == "normal" then HasStatus(a, "Normal")
    else if filter == "diseased" then HasStatus(a, "Diseased")
    else if filter == "alerts" then |Alerts(a)| > 0
    else true
  }

  /** The listed records: those matching both the breed/code search and the filter, in order. */
  function HealthList(s: seq<Animal>, query: string, filter: string): (r: seq<Animal>)
    ensures IsSubsequence(r, s)
    ensures forall i :: 0 <= i < |r| ==> MatchesBreedOrCode(r[i], query) && ByHealth(r[i], filter)
    ensures forall i :: 0 <= i < |s| && MatchesBreedOrCode(s[i], query) && ByHealth(s[i], filter) ==> multiset(r)[s[i]] == multiset(s)[s[i]]
  {
    var p := (a: Animal) => MatchesBreedOrCode(a, query) && ByHealth(a, filter);
    FilterCounts(s, p);
    Filter(s, p)
  }

  /** The milk dashboard's healthy count is the length of this page's 'normal' list with no query. */
  lemma HealthyCountIsNormalList(s: seq<Animal>)
    ensures MilkDashboard.HealthyCount(s) == |HealthList(s, "", "normal")|
  {
    forall i | 0 <= i < |s|
      ensures MatchesBreedOrCode(s[i], "")
    {
      EmptyQueryMatches(s[i]);
    }
    FilterCongruent(s, (a: Animal) => MatchesBreedOrCode(a, "") && ByHealth(a, "normal"),
                       MilkDashboard.IsHealthy);
  }

  // ----- Vaccinations -----

  /** The schedule of a record; empty when missing. */
  function Schedule(a: Animal): seq<Vaccination> {
    if a.health.Some? && a.health.value.vaccinationSchedule.Some? then a.health.value.vaccinationSchedule.value
    else []
  }

  /** Past due: the date is before now (never for an invalid date). */
  predicate IsOverdue(v: Vaccination, now: int) {
    v.nextDue.Some? && v.nextDue.value < now
  }

  /** Due soon: between 1 and 30 days away, counted in whole days rounded up. */
  predicate IsDueSoon(v: Vaccination, now: int) {
    var d := DaysUntil(v.nextDue, now);
    d.Some? && 0 < d.value <= 30
  }

  /** Due soon is the window after now up to 30 days ahead. */
  lemma DueSoonWindow(v: Vaccination, now: int)
    ensures IsDueSoon(v, now) <==> v.nextDue.Some? && now < v.nextDue.value <= now + 30 * DAY_MS
  {
    if v.nextDue.Some? {
      DaysUntilAtMost(v.nextDue.value, now, 0);
      DaysUntilAtMost(v.nextDue.value, now, 30);
    }
  }

  /** A vaccination due exactly now is neither overdue nor due soon. */
  lemma DueNowIsNeither(v: Vaccination, now: int)
    requires v.nextDue == Some(now)
    ensures !IsOverdue(v, now) && !IsDueSoon(v, now)
  {
    DueSoonWindow(v, now);
  }

  datatype VaccinationState = VaccinationOverdue | VaccinationDue | UpToDate

  datatype VaccinationSummary = VaccinationSummary(state: VaccinationState, count: nat)

  /**
   * `getVaccinationStatus`: overdue with the number of overdue entries if there is one; else due
   * with the number due soon if there is one; else up to date with count 0.
   */
  function VaccinationStatus(a: Animal, now: int): (r: VaccinationSummary)
    ensures var overdue := |Filter(Schedule(a), (v: Vaccination) => IsOverdue(v, now))|;
            var soon := |Filter(Schedule(a), (v: Vaccination) => IsDueSoon(v, now))|;
            && (r.state == VaccinationOverdue <==> overdue > 0)
            && (r.state == VaccinationDue <==> overdue == 0 && soon > 0)
            && (r.state == VaccinationOverdue ==> r.count == overdue)
            && (r.state == VaccinationDue ==> r.count == soon)
            && (r.state == UpToDate ==> r.count == 0)
    ensures r.state == UpToDate <==>
      forall i :: 0 <= i < |Schedule(a)| ==> !IsOverdue(Schedule(a)[i], now) && !IsDueSoon(Schedule(a)[i], now)
  {
    var vs := Schedule(a);
    var overdue := |Filter(vs, (v: Vaccination) => IsOverdue(v, now))|;
    var soon := |Filter(vs, (v: Vaccination) => IsDueSoon(v, now))|;
    NoneCounted(vs, (v: Vaccination) => IsOverdue(v, now));
    NoneCounted(vs, (v: Vaccination) => IsDueSoon(v, now));
    if overdue > 0 then VaccinationSummary(VaccinationOverdue, overdue)
    else if soon > 0 then VaccinationSummary(VaccinationDue, soon)
    else VaccinationSummary(UpToDate, 0)
  }

  /** A filter keeps nothing exactly when no element passes. */
  lemma NoneCounted<T>(s: seq<T>, p: T -> bool)
    ensures |Filter(s, p)| == 0 <==> forall i :: 0 <= i < |s| ==> !p(s[i])
  {
    if forall i :: 0 <= i < |s| ==> !p(s[i]) {
      FilterNone(s, p);
    }
  }

  /** Due within 30 days, overdue included: the test behind the "Vaccinations Due" card. */
  predicate DueWithin30(v: Vaccination, now: int) {
    v.nextDue.Some? && v.nextDue.value <= now + 30 * DAY_MS
  }

  /** The card counts every entry the record's summary counts as overdue or due soon. */
  lemma DueCardCoversSummary(a: Animal, now: int)
    ensures |Filter(Schedule(a), (v: Vaccination) => IsOverdue(v, now))| +
            |Filter(Schedule(a), (v: Vaccination) => IsDueSoon(v, now))| <=
            |Filter(Schedule(a), (v: Vaccination) => DueWithin30(v, now))|
  {
    var vs := Schedule(a);
    forall i | 0 <= i < |vs|
      ensures IsDueSoon(vs[i], now) ==> DueWithin30(vs[i], now)
      ensures !(IsOverdue(vs[i], now) && IsDueSoon(vs[i], now))
    {
      DueSoonWindow(vs[i], now);
    }
    FilterDisjointCount(vs, (v: Vaccination) => IsOverdue(v, now), (v: Vaccination) => IsDueSoon(v, now),
                        (v: Vaccination) => DueWithin30(v, now));
  }

  /** The "Vaccinations Due" card: entries due within 30 days, summed over the collection. */
  function VaccinationsDue(s: seq<Animal>, now: int): nat {
    if s == [] then 0
    else VaccinationsDue(s[..|s| - 1], now) + |Filter(Schedule(s[|s| - 1]), (v: Vaccination) => DueWithin30(v, now))|
  }

  /** The card's total is at least the summary counts of every record added up. */
  lemma {:induction false} VaccinationsDueCoversSummaries(s: seq<Animal>, now: int)
    ensures SummaryTotal(s, now) <= VaccinationsDue(s, now)
  {
    if s != [] {
      VaccinationsDueCoversSummaries(s[..|s| - 1], now);
      DueCardCoversSummary(s[|s| - 1], now);
    }
  }

  /** The counts of the per-record summaries, added up. */
  function SummaryTotal(s: seq<Animal>, now: int): nat {
    if s == [] then 0 else SummaryTotal(s[..|s| - 1], now) + VaccinationStatus(s[|s| - 1], now).count
  }

  datatype Badge = BadgeOverdue | BadgeDueSoon | BadgeUpToDate

  /** The per-vaccine badge: overdue before now, due soon up to 30 days ahead, else up to date. */
  function BadgeOf(v: Vaccination, now: int): (b: Badge)
    ensures b == BadgeOverdue <==> IsOverdue(v, now)
    ensures b == BadgeDueSoon <==> !IsOverdue(v, now) && DueWithin30(v, now)
    ensures b == BadgeUpToDate <==> !DueWithin30(v, now)
  {
    if v.nextDue.Some? && v.nextDue.value < now then BadgeOverdue
    else if v.nextDue.Some? && v.nextDue.value <= now + 30 * DAY_MS then BadgeDueSoon
    else BadgeUpToDate
  }

  /**
   * The badge and the summary disagree only on an entry due exactly now: the badge says due soon,
   * the summary counts it as neither.
   */
  lemma BadgeAgreesWithSummary(v: Vaccination, now: int)
    ensures BadgeOf(v, now) == BadgeOverdue <==> IsOverdue(v, now)
    ensures BadgeOf(v, now) == BadgeDueSoon <==> IsDueSoon(v, now) || v.nextDue == Some(now)
  {
    DueSoonWindow(v, now);
  }

  // ----- Alerts, contact, measures -----

  /** The "Health Alerts" card: the number of alerts over the collection. */
  function AlertTotal(s: seq<Animal>): nat {
    if s == [] then 0 else AlertTotal(s[..|s| - 1]) + |Alerts(s[|s| - 1])|
  }

  /** Each record in the 'alerts' list contributes at least one alert to the card. */
  lemma AlertTotalCoversList(s: seq<Animal>)
    ensures |HealthList(s, "", "alerts")| <= AlertTotal(s)
  {
    AlertedCount(s, (x: Animal) => MatchesBreedOrCode(x, "") && ByHealth(x, "alerts"));
  }

  /** A filter that only keeps records with alerts keeps no more records than there are alerts. */
  lemma {:induction false} AlertedCount(s: seq<Animal>, p: Animal -> bool)
    requires forall a :: p(a) ==> |Alerts(a)| > 0
    ensures |Filter(s, p)| <= AlertTotal(s)
  {
    if s != [] {
      var init, a := s[..|s| - 1], s[|s| - 1];
      AlertedCount(init, p);
      assert s == init + [a];
      FilterAppend(init, [a], p);
      assert |Filter([a], p)| <= |Alerts(a)| by {
        assert [a][1..] == [];
      }
    }
  }

  const NotAssigned := "Not assigned"

  /** The contact shown: the text before the first " - ", or 'Not assigned' when that is empty. */
  function Contact(a: Animal): (r: string)
    ensures r != ""
    ensures a.health.None? || a.health.value.veterinaryContact.None? ==> r == NotAssigned
    ensures a.health.Some? && a.health.value.veterinaryContact.Some? ==>
      var name := BeforeSeparator(a.health.value.veterinaryContact.value, " - ");
      r == if name == "" then NotAssigned else name
  {
    if a.health.None? || a.health.value.veterinaryContact.None? then NotAssigned
    else
      var name := BeforeSeparator(a.health.value.veterinaryContact.value, " - ");
      if name == "" then NotAssigned else name
  }

  /** A contact written as name, " - ", number shows the name, as long as the name has no '-'. */
  lemma ContactShowsName(a: Animal, name: string, phone: string)
    requires a.health.Some? && a.health.value.veterinaryContact == Some(name + " - " + phone)
    requires name != "" && '-' !in name
    ensures Contact(a) == name
  {
    var c := name + " - " + phone;
    var r := BeforeSeparator(c, " - ");
    assert StartsWith(c[|name|..], " - ");
    forall i | 0 <= i < |name|
      ensures !StartsWith(c[i..], " - ")
    {
      if i + 1 < |name| {
        assert c[i + 1] == name[i + 1];
      }
      assert c[i..][1] == c[i + 1] != '-';
    }
  }

  /** The measures listed: the first three, or all of them when there are fewer. */
  function Measures(a: Animal): (r: seq<string>)
    ensures |r| <= 3
    ensures var all := if a.health.Some? && a.health.value.preventiveMeasures.Some?
                       then a.health.value.preventiveMeasures.value else [];
            |r| == (if |all| < 3 then |all| else 3) && r == all[..|r|]
  {
    if a.health.Some? && a.health.value.preventiveMeasures.Some? then
      var m := a.health.value.preventiveMeasures.value;
      if |m| <= 3 then m else m[..3]
    else []
  }
}
