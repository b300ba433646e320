/**
 * The breeding page: day counts to the next mating, the status and advice shown per record, the
 * searchable status filter and the overview counts.
 */
module Breeding {
  import opened Wrappers
  import opened Text
  import opened Seqs
  import opened Animals

  function NextMating(a: Animal): Timestamp {
    if a.breeding.Some? then a.breeding.value.nextMatingDue else None
  }

  function PregnancyStatus(a: Animal): Option<string> {
    if a.breeding.Some? then a.breeding.value.pregnancyStatus else None
  }

  /** The page's pregnancy test: the status mentions "Pregnant". */
  predicate IsPregnant(a: Animal) {
    PregnancyStatus(a).Some? && Contains(PregnancyStatus(a).value, "Pregnant")
  }

  /** Ready to breed: the status is exactly "Not Pregnant". */
  predicate IsReady(a: Animal) {
    PregnancyStatus(a) == Some("Not Pregnant")
  }

  /** Mating due within 30 days (or already overdue); never for a missing date. */
  predicate MatingDue(a: Animal, now: int) {
    var d := DaysUntil(NextMating(a), now);
    d.Some? && d.value <= 30
  }

  /** Mating due is a date window: the next mating is at most 30 days after now. */
  lemma MatingDueWindow(a: Animal, now: int)
    ensures MatingDue(a, now) <==> NextMating(a).Some? && NextMating(a).value <= now + 30 * DAY_MS
  {
    if NextMating(a).Some? {
      DaysUntilAtMost(NextMating(a).value, now, 30);
    }
  }

  /** The substring test also counts "Not Pregnant": such a record is both pregnant and ready. */
  lemma PregnantAndReadyOverlap(a: Animal)
    requires IsReady(a)
    ensures IsPregnant(a)
  {
    ContainsInConcat("Not ", "Pregnant", "");
    assert PregnancyStatus(a).value == "Not " + "Pregnant" + "";
  }

  // ----- Status and advice -----

  datatype BreedingStatus = Pregnant | Overdue | Due | Ready

  /**
   * `getBreedingStatus`: pregnant by the substring test; otherwise overdue when the next mating
   * date has passed, due when it is within 30 days, and ready when it is later or unknown.
   */
  function StatusOf(a: Animal, now: int): (st: BreedingStatus)
    ensures st == Pregnant <==> IsPregnant(a)
    ensures st == Overdue <==> !IsPregnant(a) && NextMating(a).Some? && NextMating(a).value <= now
    ensures st == Due <==> !IsPregnant(a) && NextMating(a).Some? &&
                           now < NextMating(a).value <= now + 30 * DAY_MS
    ensures st == Ready <==> !IsPregnant(a) && (NextMating(a).None? || NextMating(a).value > now + 30 * DAY_MS)
  {
    if IsPregnant(a) then Pregnant
    else
      var d := DaysUntil(NextMating(a), now);
      if d.Some? then
        DaysUntilAtMost(NextMating(a).value, now, 0);
        DaysUntilAtMost(NextMating(a).value, now, 30);
        if d.value <= 0 then Overdue
        else if d.value <= 30 then Due
        else Ready
      else Ready
  }

  /** A record that is not pregnant has mating due exactly when its status is overdue or due. */
  lemma DueIffOverdueOrDue(a: Animal, now: int)
    requires !IsPregnant(a)
    ensures MatingDue(a, now) <==> StatusOf(a, now) in {Overdue, Due}
  {
    MatingDueWindow(a, now);
  }

  const PregnancyAdvice: seq<string> := [
    "Provide extra nutrition for pregnancy",
    "Schedule regular veterinary checkups",
    "Prepare clean and comfortable calving area"]

  const MatingAdvice: seq<string> := [
    "Schedule mating with recommended partner",
    "Ensure animal is in good health condition",
    "Prepare breeding environment"]

  const CycleAdvice: seq<string> := [
    "Monitor heat cycles regularly",
    "Maintain optimal body condition",
    "Keep breeding records updated"]

  /** The advice for each status: overdue and due share the mating advice. */
  function AdviceFor(st: BreedingStatus): (advice: seq<string>)
    ensures |advice| == 3
  {
    match st
    case Pregnant => PregnancyAdvice
    case Overdue => MatingAdvice
    case Due => MatingAdvice
    case Ready => CycleAdvice
  }

  /** `getBreedingRecommendations`: builds the list by pushing three fixed lines. */
  method Recommendations(a: Animal, now: int) returns (recs: seq<string>)
    ensures |recs| == 3
    ensures IsPregnant(a) ==> recs == PregnancyAdvice
    ensures !IsPregnant(a) && MatingDue(a, now) ==> recs == MatingAdvice
    ensures !IsPregnant(a) && !MatingDue(a, now) ==> recs == CycleAdvice
    ensures recs == AdviceFor(StatusOf(a, now))
  {
    recs := [];
    if IsPregnant(a) {
      recs := recs + ["Provide extra nutrition for pregnancy"];
      recs := recs + ["Schedule regular veterinary checkups"];
      recs := recs + ["Prepare clean and comfortable calving area"];
    } else {
      var d := DaysUntil(NextMating(a), now);
      DueIffOverdueOrDue(a, now);
      if d.Some? && d.value <= 30 {
        recs := recs + ["Schedule mating with recommended partner"];
        recs := recs + ["Ensure animal is in good health condition"];
        recs := recs + ["Prepare breeding environment"];
      } else {
        recs := recs + ["Monitor heat cycles regularly"];
        recs := recs + ["Maintain optimal body condition"];
        recs := recs + ["Keep breeding records updated"];
      }
    }
  }

  // ----- Filter and counts -----

  /** The status filter: 'pregnant', 'ready' and 'due' narrow the search; anything else does not. */
  predicate ByStatus(a: Animal, status: string, now: int) {
    if status == "pregnant" then IsPregnant(a)
    else if status == "ready" then IsReady(a)
    else if status == "due" then MatingDue(a, now)
    else true
  }

  /** The listed records: those matching both the search and the status filter, in order. */
  function BreedingList(s: seq<Animal>, query: string, status: string, now: int): (r: seq<Animal>)
    ensures IsSubsequence(r, s)
    ensures forall i :: 0 <= i < |r| ==> MatchesBreedOrCode(r[i], query) && ByStatus(r[i], status, now)
    ensures forall i :: 0 <= i < |s| && MatchesBreedOrCode(s[i], query) && ByStatus(s[i], status, now) ==> multiset(r)[s[i]] == multiset(s)[s[i]]
  {
    var p := (a: Animal) => MatchesBreedOrCode(a, query) && ByStatus(a, status, now);
    FilterCounts(s, p);
    Filter(s, p)
  }

  /** With an empty query and no status filter every record is listed. */
  lemma EmptyQueryListsAll(s: seq<Animal>, status: string, now: int)
    requires status != "pregnant" && status != "ready" && status != "due"
    ensures BreedingList(s, "", status, now) == s
  {
    forall i | 0 <= i < |s|
      ensures MatchesBreedOrCode(s[i], "")
    {
      EmptyQueryMatches(s[i]);
    }
    FilterAll(s, (a: Animal) => MatchesBreedOrCode(a, "") && ByStatus(a, status, now));
  }

  /** With an empty query, the list is the records passing the status filter alone. */
  lemma EmptyQueryList(s: seq<Animal>, status: string, now: int)
    ensures BreedingList(s, "", status, now) == Filter(s, (a: Animal) => ByStatus(a, status, now))
  {
    forall i | 0 <= i < |s|
      ensures MatchesBreedOrCode(s[i], "")
    {
      EmptyQueryMatches(s[i]);
    }
    FilterCongruent(s, (a: Animal) => MatchesBreedOrCode(a, "") && ByStatus(a, status, now),
                       (a: Animal) => ByStatus(a, status, now));
  }

  datatype BreedingOverview = BreedingOverview(pregnant: nat, ready: nat, dueSoon: nat, total: nat)

  /** The overview cards: pregnant, ready, mating due soon, total. */
  function Overview(s: seq<Animal>, now: int): (o: BreedingOverview)
    ensures o.pregnant == |BreedingList(s, "", "pregnant", now)|
    ensures o.ready == |BreedingList(s, "", "ready", now)|
    ensures o.dueSoon == |BreedingList(s, "", "due", now)|
    ensures o.total == |s| == |BreedingList(s, "", "all", now)|
    ensures o.pregnant <= o.total && o.ready <= o.pregnant
  {
    EmptyQueryList(s, "pregnant", now);
    EmptyQueryList(s, "ready", now);
    EmptyQueryList(s, "due", now);
    EmptyQueryListsAll(s, "all", now);
    FilterCongruent(s, (a: Animal) => ByStatus(a, "pregnant", now), IsPregnant);
    FilterCongruent(s, (a: Animal) => ByStatus(a, "ready", now), IsReady);
    FilterCongruent(s, (a: Animal) => ByStatus(a, "due", now), (a: Animal) => MatingDue(a, now));
    forall i | 0 <= i < |s| && IsReady(s[i])
      ensures IsPregnant(s[i])
    {
      PregnantAndReadyOverlap(s[i]);
    }
    FilterNone(s, (a: Animal) => false);
    FilterDisjointCount(s, IsReady, (a: Animal) => false, IsPregnant);
    BreedingOverview(
      |Filter(s, IsPregnant)|,
      |Filter(s, IsReady)|,
      |Filter(s, (a: Animal) => MatingDue(a, now))|,
      |s|)
  }
}
