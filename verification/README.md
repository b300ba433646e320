# GauGuru livestock dashboard — a Dafny model

GauGuru is a browser dashboard for dairy farmers. A farmer logs in with a phone number and a
one-time code, then keeps a herd of animal records (cattle and buffalo). The records are held in
one shared collection that is saved to the browser's storage. Around that collection sit these
pages:

- the animal records page: search, category filter, sorting, export to CSV;
- the milk dashboard: the top five producers and a CSV export;
- breeding management: pregnancy and mating status, and recommendations;
- health management: vaccination status, alerts and veterinary contact;
- the iris scan: a simulated breed recognition whose result can be saved as a new record.

This project models that core in Dafny and proves properties of the model:

- `Animals` holds the record datatypes, partial updates and the shared date arithmetic;
- `AnimalStore` holds the collection and its operations. The `Store` class keeps the current array
  and, as ghost state, the copy last written to storage;
- `Sorting` holds the comparison sort the pages use. It has a functional specification
  (`SortedBy`), which is proved to be sorted, a permutation and stable, and to be the only such
  ordering. An in-place insertion sort (`SortInPlace`) is proved equal to it;
- `AnimalRecords`, `MilkDashboard`, `Breeding` and `HealthManagement` model the pages;
- `Auth` and `Login` model the session and the login form;
- `IrisScan` models the scan session;
- `Text`, `Seqs` and `Wrappers` are the string, sequence and option support.

Time is an integer number of milliseconds, passed in as `now`. A date that is missing or cannot be
parsed is `None`. Random choices become nondeterministic choices, bounded as in the code.

Where the repository's design notes and its code disagree, the model follows the code:

- New records always get a code "CT" + the zero-padded size of the collection plus one. The notes
  describe a prefix taken from the breed.
- The notes call the records sort stable, with ties kept in their earlier order. The comparator
  never returns 0 (see Findings), so the code does not guarantee that.
- The notes call the cattle and buffalo categories disjoint. The code's substring tests overlap,
  for example on "Jersey x Murrah" (`AnimalStore.CategoriesOverlap`).
- The iris scan comment promises a yield of 15–35 L. `Math.floor(Math.random() * 20) + 15` gives 15
  to 34, which is what `IrisScan.ScanSession.SaveAnimal` states.

## Model

| member | source | states |
|---|---|---|
| Animals.DaysUntil | src/pages/BreedingManagement.jsx:47-49 | the day count is None exactly for a missing date; otherwise it is the whole number of days rounded up: (d-1) days < date-now <= d days |
| Animals.DaysUntilAtMost | src/pages/BreedingManagement.jsx:49-53 | "at most n days until" holds exactly when the date is no later than now + n days |
| Animals.EmptyQueryMatches | src/pages/BreedingManagement.jsx:27-28 | the empty search matches every record by breed or code |
| Animals.Then | src/contexts/AnimalContext.jsx:331-335 | composing two partial updates gives, field by field, the later one where it is set, else the earlier one |
| Animals.MergeLaws | src/contexts/AnimalContext.jsx:331-335 | spreading an empty update changes nothing; spreading the same update twice equals spreading it once; two updates in a row equal their composition |
| Animals.AnimalCode | src/contexts/AnimalContext.jsx:319 | a new record's code is "CT" then at least three digits whose value is the given number |
| Animals.AnimalCodePadding | src/contexts/AnimalContext.jsx:319 | the zero padding stops at three digits: a longer code has no leading zero and is "CT" followed by the number written out, so with AnimalCode the code is fixed |
| Animals.AnimalCodeInjective | src/contexts/AnimalContext.jsx:319 | distinct collection sizes give distinct codes |
| AnimalStore.OneDigitCode | src/contexts/AnimalContext.jsx:319 | a sequence number n below ten gives the code "CT00" followed by n's digit |
| Animals.NewRecord | src/contexts/AnimalContext.jsx:316-322 | a new record carries every field of the submitted data; its id is the current time in digits and its code is derived from size+1 unless the data sets them; the stamp is now |
| Animals.Refreshed | src/contexts/AnimalContext.jsx:332-335 | an updated record is the old one with the changes spread over it, and the stamp set to now |
| Animals.SeedAnimals | src/contexts/AnimalContext.jsx:24-313 | the sample herd written on first start has five records with pairwise distinct ids |
| AnimalStore.FindById | src/contexts/AnimalContext.jsx:349-351 | the lookup is None exactly when no record has the id; otherwise it is the first record with that id |
| AnimalStore.FirstWithIdUnique | src/contexts/AnimalContext.jsx:349-351 | the first position with a given id is unique |
| AnimalStore.Updated | src/contexts/AnimalContext.jsx:331-336 | updating keeps the length; records with another id are untouched; every record with the id is refreshed with the changes |
| AnimalStore.UpdateMissingIsNoOp | src/contexts/AnimalContext.jsx:331-336 | updating an absent id leaves the collection equal to what it was |
| AnimalStore.UpdateThenFind | src/contexts/AnimalContext.jsx:331-336 | after an update that keeps the id, looking the id up gives the refreshed old record |
| AnimalStore.UpdateKeepsOthers | src/contexts/AnimalContext.jsx:331-336 | an update that keeps its id does not change the lookup of any other id |
| AnimalStore.Removed | src/contexts/AnimalContext.jsx:342-343 | deletion keeps, in order, every record whose id differs, each as many times as it occurs, and no other |
| Seqs.FilterUnique | src/contexts/AnimalContext.jsx:343 | `filter` is pinned by order and multiplicity: any subsequence holding every passing element as often as the input, and nothing failing, is the filter result |
| AnimalStore.DeleteThenFind | src/contexts/AnimalContext.jsx:342-343 | after deletion the id is no longer found |
| AnimalStore.DeleteMissingIsNoOp | src/contexts/AnimalContext.jsx:342-343 | deleting an absent id changes nothing |
| AnimalStore.DeleteKeepsOthers | src/contexts/AnimalContext.jsx:342-343 | deletion does not change the lookup of any other id |
| AnimalStore.Search | src/contexts/AnimalContext.jsx:353-363 | an empty query returns the whole collection; otherwise, in order, the records whose lower-cased breed, code, colour or owner contains the lower-cased query, each as many times as it occurs, and no other |
| AnimalStore.FilterByCategory | src/contexts/AnimalContext.jsx:365-370 | 'cattle' keeps the Holstein or Jersey breeds, 'buffalo' the Buffalo or Murrah breeds, in order and each as many times as it occurs, and no other; any other filter keeps everything |
| AnimalStore.CategoriesOverlap | src/contexts/AnimalContext.jsx:367-368 | a "jersey x murrah" record falls in both categories |
| AnimalStore.TotalYieldAppend | src/contexts/AnimalContext.jsx:373 | the total yield of two parts is the sum of their totals |
| AnimalStore.TotalYieldPermutation | src/contexts/AnimalContext.jsx:373 | reordering the collection does not change the total yield |
| AnimalStore.Stats | src/contexts/AnimalContext.jsx:372-381 | the count is the collection size; the total sums the yields, a missing yield counting as 0; the average, in tenths, is 0 for an empty herd and otherwise the rounded mean |
| AnimalStore.StatsAfterAdd | src/contexts/AnimalContext.jsx:316-325 | adding a record raises the count by one and the total by its yield |
| AnimalStore.Store.Load | src/contexts/AnimalContext.jsx:17-313 | on start the collection is the saved one when present, else the sample herd, and the stored copy equals it |
| AnimalStore.Store.Add | src/contexts/AnimalContext.jsx:316-329 | the new collection is the old one plus the new record, which is returned; storage holds the new collection |
| AnimalStore.Store.Update | src/contexts/AnimalContext.jsx:331-340 | the new collection is the updated one; storage holds it |
| AnimalStore.Store.Delete | src/contexts/AnimalContext.jsx:342-347 | the new collection is the old one without the id; storage holds it |
| AnimalStore.FirstCodes | src/contexts/AnimalContext.jsx:319 | the first three added records get codes CT001, CT002, CT003 |
| Sorting.KeyOrder | src/pages/AnimalRecords.jsx:86-90 | the comparison of sort keys (numbers, or strings compared lexicographically) is irreflexive, transitive and total |
| Sorting.AfterAsymmetric | src/pages/AnimalRecords.jsx:86-90 | if a sorts after b, b does not sort after a |
| Sorting.NotAfterTransitive | src/pages/AnimalRecords.jsx:86-90 | "not after" is transitive, so "sorted" is a consistent notion |
| Sorting.SameKeyIffTied | src/pages/AnimalRecords.jsx:66-90 | two records are tied, neither after the other, exactly when their keys are equal |
| Sorting.InsertSorted | src/pages/AnimalRecords.jsx:63-91 | inserting into a sorted sequence keeps it sorted |
| Sorting.SortedByPermutation | src/pages/AnimalRecords.jsx:63-91 | the sort result holds exactly the same records with the same multiplicities |
| Sorting.SortedBySorted | src/pages/AnimalRecords.jsx:63-91 | the sort result is sorted |
| Sorting.SortedByStable | src/pages/AnimalRecords.jsx:63-91 | records with equal keys keep their relative order |
| Sorting.StableSortIsUnique | src/pages/AnimalRecords.jsx:63-91 | any sorted arrangement that keeps each key group in its original order is the sort result |
| Sorting.SortInPlace | src/pages/AnimalRecords.jsx:63 | sorting the array in place leaves it equal to the sort of its old contents |
| Sorting.InsertAt | src/pages/AnimalRecords.jsx:63-91 | one step of the in-place sort: the element at i moves into the sorted prefix exactly where the functional insertion puts it, and the rest of the array is unchanged |
| AnimalRecords.ViewCategoryWidens | src/pages/AnimalRecords.jsx:47-60 | the page's category filter keeps at least as many records as the collection's own filter for the same category |
| AnimalRecords.Categorized | src/pages/AnimalRecords.jsx:47-60 | 'all' keeps everything; 'cattle' keeps Holstein, Jersey or "cattle" breeds, 'buffalo' Buffalo or Murrah, any other value everything; kept records stay in order with their multiplicity, and nothing else is kept |
| AnimalRecords.Selection | src/pages/AnimalRecords.jsx:39-60 | with no query and 'all' the selection is the collection itself; otherwise it is an order-preserving subsequence holding every record that passes both the search and the category, as many times as it occurs in the collection, and no other |
| AnimalRecords.SelectionArray | src/pages/AnimalRecords.jsx:39-60 | the array the page then sorts holds the selection; it is the collection's own array when there is no query and the category is 'all', a new array otherwise |
| AnimalRecords.FieldOf | src/pages/AnimalRecords.jsx:66-84 | 'breed', 'milkYield' and 'age' choose their own key; every other value chooses the update time |
| AnimalRecords.Compare | src/pages/AnimalRecords.jsx:86-90 | the comparator returns only 1 or -1, and 1 exactly when a sorts after b for the chosen key and order |
| AnimalRecords.CompareTiesInconsistent | src/pages/AnimalRecords.jsx:86-90 | for two records with equal keys the comparator answers -1 both ways round |
| AnimalRecords.CompareConsistent | src/pages/AnimalRecords.jsx:86-90 | the corrected comparator is positive, negative or zero exactly when a is after, before or tied with b |
| AnimalRecords.CompareConsistentAntisymmetric | src/pages/AnimalRecords.jsx:86-90 | swapping the arguments of the corrected comparator negates its answer |
| AnimalRecords.NextSort | src/pages/AnimalRecords.jsx:104-111 | a new column is sorted descending; clicking the same column flips between ascending and descending |
| AnimalRecords.SameColumnFlips | src/pages/AnimalRecords.jsx:104-107 | clicking the current column keeps the column and changes the order |
| AnimalRecords.SameColumnTwice | src/pages/AnimalRecords.jsx:104-107 | clicking the current column twice restores the original order |
| AnimalRecords.RecordsView.Open | src/pages/AnimalRecords.jsx:27-33 | the page opens with no query, 'all', newest first, showing the collection's own array |
| AnimalRecords.RecordsView.SetQuery | src/pages/AnimalRecords.jsx:96-98 | typing sets the query and nothing else |
| AnimalRecords.RecordsView.SetFilter | src/pages/AnimalRecords.jsx:100-102 | choosing a category sets the filter and nothing else |
| AnimalRecords.RecordsView.HandleSort | src/pages/AnimalRecords.jsx:104-111 | clicking a column moves the sort state to the next one and leaves query and filter alone |
| AnimalRecords.RecordsView.Refresh | src/pages/AnimalRecords.jsx:38-94 | the shown list is the selection sorted by the chosen column and order; with no query and 'all' it is the collection's own array, sorted in place, still the same records as storage; otherwise a new array, the collection untouched |
| AnimalRecords.YieldCell | src/pages/AnimalRecords.jsx:128 | a missing yield exports as an empty cell, and only then |
| AnimalRecords.YieldCellRoundTrip | src/pages/AnimalRecords.jsx:128 | an exported yield parses back to its value |
| AnimalRecords.RecordRow | src/pages/AnimalRecords.jsx:123-131 | a row holds code, breed, colour, age, owner, the yield cell and the locale date of the last update, in header order |
| AnimalRecords.RecordTable | src/pages/AnimalRecords.jsx:121-131 | the export is the header followed by one row per shown record, in order |
| AnimalRecords.ExportRoundTrip | src/pages/AnimalRecords.jsx:120-132 | for cells free of commas and newlines, splitting the CSV gives back the header and every row |
| AnimalRecords.SelectedAnimal | src/pages/AnimalRecords.jsx:145 | no record is selected without a parameter; a selected record is the first one in the collection with the parameter as id, and one is selected whenever some record has that id |
| MilkDashboard.YieldComparator | src/pages/MilkDashboard.jsx:37 | the ranking comparator is positive, negative or zero exactly when a is after, before or tied with b for highest yield first |
| MilkDashboard.YieldComparatorAntisymmetric | src/pages/MilkDashboard.jsx:37 | swapping the arguments negates the comparator |
| MilkDashboard.Top5Length | src/pages/MilkDashboard.jsx:38 | the top list has five records, or all of them when there are fewer |
| MilkDashboard.RankedYields | src/pages/MilkDashboard.jsx:37 | in a ranked sequence the yields never increase |
| MilkDashboard.Top5NonIncreasing | src/pages/MilkDashboard.jsx:36-38 | the top list's yields never increase |
| MilkDashboard.Top5Rest | src/pages/MilkDashboard.jsx:36-38 | a record left out of the top list means the list is full and the record yields no more than its fifth entry |
| MilkDashboard.RankingStable | src/pages/MilkDashboard.jsx:37 | records with the same yield keep their relative order in the ranking |
| MilkDashboard.RankingIsTheStableSort | src/pages/MilkDashboard.jsx:37 | any non-increasing arrangement that keeps equal yields in order is the ranking |
| MilkDashboard.RankingKeepsStats | src/pages/MilkDashboard.jsx:37 | ranking the collection does not change its count, total or average |
| MilkDashboard.TopAnimals | src/pages/MilkDashboard.jsx:36-38 | the collection's own array is left ranked by yield, storage still holds the same records, and the first five of the ranking are returned |
| MilkDashboard.HealthyCount | src/pages/MilkDashboard.jsx:125 | the healthy count is the number of records whose status is exactly Normal; it equals the herd size exactly when every record is normal |
| MilkDashboard.StatusCell | src/pages/MilkDashboard.jsx:46 | the status cell is the record's health status when one is set and non-empty, and 'Normal' otherwise |
| MilkDashboard.MilkRow | src/pages/MilkDashboard.jsx:42-47 | a row holds code, breed, the yield written as a plain integer (a missing yield as "0") and the status cell; a non-negative yield parses back to its value |
| MilkDashboard.MilkTable | src/pages/MilkDashboard.jsx:41-48 | the export is the header followed by one row per record, in order |
| MilkDashboard.MilkCsvRoundTrip | src/pages/MilkDashboard.jsx:41-49 | for plain cells, splitting the CSV gives back the header and every row |
| Breeding.MatingDueWindow | src/pages/BreedingManagement.jsx:33-38 | mating is due exactly when the next mating date is known and at most 30 days away |
| Breeding.PregnantAndReadyOverlap | src/pages/BreedingManagement.jsx:31-32 | a "Not Pregnant" record also passes the pregnancy test, because the test is a substring match |
| Breeding.StatusOf | src/pages/BreedingManagement.jsx:43-59 | pregnant exactly when the status mentions "Pregnant"; otherwise overdue for a date not after now, due for a date within 30 days, ready for a later or missing date |
| Breeding.DueIffOverdueOrDue | src/pages/BreedingManagement.jsx:33-57 | for a record that is not pregnant, the 'due' filter agrees with the badge being overdue or due |
| Breeding.AdviceFor | src/pages/BreedingManagement.jsx:61-85 | every status gets three recommendations |
| Breeding.Recommendations | src/pages/BreedingManagement.jsx:61-85 | three recommendations: pregnancy care when pregnant, mating preparation when due, cycle monitoring otherwise; they agree with the status badge |
| Breeding.BreedingList | src/pages/BreedingManagement.jsx:26-41 | the list keeps, in order, the records that match the breed-or-code search and the chosen status, each as many times as it occurs, and no other |
| Breeding.EmptyQueryListsAll | src/pages/BreedingManagement.jsx:26-41 | with no query and no status filter the whole herd is listed |
| Breeding.EmptyQueryList | src/pages/BreedingManagement.jsx:26-41 | with no query the list is exactly the status filter |
| Breeding.Overview | src/pages/BreedingManagement.jsx:143-189 | the summary counts equal the lengths of the lists for pregnant, ready and due, and the herd size; ready <= pregnant <= total |
| HealthManagement.HealthList | src/pages/HealthManagement.jsx:28-38 | the list keeps, in order, the records matching the search and the health filter, each as many times as it occurs, and no other |
| HealthManagement.HealthyCountIsNormalList | src/pages/HealthManagement.jsx:152 | the normal-health count equals the length of the 'normal' list |
| HealthManagement.DueSoonWindow | src/pages/HealthManagement.jsx:56-60 | due soon means the next dose is later than now and at most 30 days away |
| HealthManagement.DueNowIsNeither | src/pages/HealthManagement.jsx:55-60 | a dose due exactly now counts as neither overdue nor due soon |
| HealthManagement.VaccinationStatus | src/pages/HealthManagement.jsx:51-65 | overdue with the overdue count when any dose is past; otherwise due with the due-soon count when any is; otherwise up to date with count 0 |
| HealthManagement.NoneCounted | src/pages/HealthManagement.jsx:55-63 | a filtered count is zero exactly when nothing passes the test |
| HealthManagement.DueCardCoversSummary | src/pages/HealthManagement.jsx:180-184 | per record, the overdue and due-soon doses together are at most the doses the summary card counts |
| HealthManagement.VaccinationsDueCoversSummaries | src/pages/HealthManagement.jsx:180-184 | the card's total is at least the sum of the per-record status counts |
| HealthManagement.BadgeOf | src/pages/HealthManagement.jsx:411-419 | a dose's badge is overdue for a past date, due soon within 30 days, up to date otherwise |
| HealthManagement.BadgeAgreesWithSummary | src/pages/HealthManagement.jsx:51-65 | the badge agrees with the status classification except for a dose due exactly now |
| HealthManagement.AlertTotalCoversList | src/pages/HealthManagement.jsx:198 | the alert total is at least the number of records listed under 'alerts' |
| HealthManagement.Contact | src/pages/HealthManagement.jsx:261 | the contact is the text before the first " - " of the recorded contact, or "Not assigned" when no contact is recorded or that text is empty; it is never empty |
| HealthManagement.ContactShowsName | src/pages/HealthManagement.jsx:261 | a contact written "name - phone" shows the name |
| HealthManagement.Measures | src/pages/HealthManagement.jsx:311 | the first three of the record's measures are shown, or all of them when there are fewer than three |
| Auth.OtpAcceptedIffSix | src/contexts/AuthContext.jsx:55 | a code is accepted exactly when it has six characters, so the fixed code adds nothing |
| Auth.LoginUser | src/contexts/AuthContext.jsx:56-62 | the new user has the phone, role farmer, creation time now, name "Farmer " plus the phone's last four characters, and an id whose digits spell now |
| Auth.AuthState.Restore | src/contexts/AuthContext.jsx:15-27 | the session starts with the saved user, if any, and nothing sent, verified or loading |
| Auth.AuthState.SendOTP | src/contexts/AuthContext.jsx:29-46 | sending succeeds, marks the code sent and leaves the user alone |
| Auth.AuthState.VerifyOTP | src/contexts/AuthContext.jsx:48-79 | a six-character code logs in a new user and saves it; any other code fails with "Invalid OTP" and changes nothing |
| Auth.AuthState.Logout | src/contexts/AuthContext.jsx:81-87 | logging out clears the user, the saved user and both flags |
| Auth.AuthState.ResetOTP | src/contexts/AuthContext.jsx:89-92 | resetting clears both flags and keeps the user |
| Login.ValidPhoneNumberValue | src/pages/Login.jsx:18-21 | a valid phone number is exactly ten digits starting with 6 to 9 |
| Login.PhoneError | src/pages/Login.jsx:27-35 | no error exactly for a valid number; an empty number is "required", any other invalid one "invalid" |
| Login.OtpError | src/pages/Login.jsx:44-52 | no error exactly for six characters; empty is "required", any other length "must be 6 digits" |
| Login.FormCheckedCodeAccepted | src/pages/Login.jsx:44-54 | a code that passes the form's checks is accepted by the session |
| Login.DigitsOnly | src/pages/Login.jsx:162 | the code field keeps the typed digits in order, each as many times as it was typed, drops everything else, and leaves digit-only input unchanged |
| Login.DigitsOnlyIdempotent | src/pages/Login.jsx:162 | filtering digits twice is filtering once |
| Login.LoginForm.Open | src/pages/Login.jsx:14-16 | the form starts empty with no errors |
| Login.LoginForm.EditPhone | src/pages/Login.jsx:113 | typing a number sets it and nothing else |
| Login.LoginForm.EditOtp | src/pages/Login.jsx:162 | typing a code stores its digits only |
| Login.LoginForm.HandleSendOTP | src/pages/Login.jsx:23-38 | the code is sent exactly when the number is valid; the error shown is the number's error |
| Login.LoginForm.HandleVerifyOTP | src/pages/Login.jsx:40-55 | the user is logged in exactly when the code has six characters; the error shown is the code's error |
| Login.LoginForm.HandleBackToPhone | src/pages/Login.jsx:57-60 | going back clears the code and the session's flags, keeping the number |
| IrisScan.Profile | src/pages/IrisScan.jsx:66-260 | each of the five breed profiles has a confidence of at most 100%, a code of its prefix plus the last three digits of the time, and good health, up-to-date vaccination and active insurance |
| IrisScan.SavedRecord | src/pages/IrisScan.jsx:277-300 | a saved scan becomes a record with the scan's breed and traits, owner "Current User", the drawn yield, the image, and the store's own next code |
| IrisScan.DisplayedCodeDiscarded | src/pages/IrisScan.jsx:277-297 | for the non-"CT" breeds the code shown on the result card is not the code the record gets |
| IrisScan.ScanSession.Open | src/pages/IrisScan.jsx:26-29 | a scan starts with no image, no result and nothing processing |
| IrisScan.ScanSession.Capture | src/pages/IrisScan.jsx:40-54 | capturing or uploading sets the image and nothing else |
| IrisScan.ScanSession.ProcessImage | src/pages/IrisScan.jsx:56-275 | without an image nothing happens; otherwise the result is one of the five profiles, shown, with processing finished |
| IrisScan.ScanSession.SaveAnimal | src/pages/IrisScan.jsx:277-300 | without a result nothing is saved and storage is untouched; otherwise exactly the scanned record, with a yield from 15 to 34, is appended to the collection and storage is rewritten to equal it |
| IrisScan.ScanSession.ResetScan | src/pages/IrisScan.jsx:302-307 | resetting clears image, result and both flags |
| Text.Lower | src/contexts/AnimalContext.jsx:356-361 | lower-casing keeps the length and maps each character |
| Text.LowerIdempotent | src/contexts/AnimalContext.jsx:356-361 | lower-casing twice is lower-casing once |
| Text.ContainsAt | src/contexts/AnimalContext.jsx:358-361 | containment holds exactly when the query occurs at some position |
| Text.TakeLast | src/contexts/AuthContext.jsx:59 | taking the last n characters gives a suffix of length n, or the whole string when shorter |
| Text.NatToStringRoundTrip | src/contexts/AnimalContext.jsx:318 | a number written in digits reads back as the same number |
| Text.PadStart | src/contexts/AnimalContext.jsx:319 | padding gives the requested width, with the original as suffix and the fill before it |
| Text.LeadingZerosValue | src/contexts/AnimalContext.jsx:319 | leading zeros do not change a digit string's value |
| Text.ParseRenderedNumber | src/pages/AnimalRecords.jsx:76 | parsing a number written in digits, followed by a non-digit, gives the number back |
| Text.SplitHead | src/pages/HealthManagement.jsx:261 | splitting at a separator absent from the first part gives that part first |
| Text.SplitJoin | src/pages/AnimalRecords.jsx:132 | joining parts free of the separator and splitting again gives the parts back |
| Text.CsvFileNameDate | src/pages/AnimalRecords.jsx:138 | the export file is named by the prefix and the date part of the time stamp |
| Text.CsvRoundTrip | src/pages/AnimalRecords.jsx:121-132 | for plain cells, splitting the CSV text by lines and commas gives back the table |

## Left out

- Rendering, routing, translations, toasts, confirmation dialogs, timers and the simulated network
  delays are not modelled. Neither are the pages' detail panels and static content, such as common
  diseases and weekly milk charts.
- Browser storage is ghost state (`stored`). JSON encoding and malformed saved data are not
  modelled.
- The clock (`Date.now()`, `new Date()`) and `Math.random()` are parameters or nondeterministic
  choices. `toLocaleDateString` is a function parameter of the export.
- Lower-casing covers ASCII letters only. `parseInt` is modelled as: optional leading white space,
  an optional sign, then leading digits, with 0 when there are none. Fractions and radix prefixes
  are not modelled.
- Fields missing from submitted data are empty strings or `None`. The source would leave them
  undefined, and its search would then fail on them.
- Dates are integer milliseconds. An unparseable date is `None`, and every comparison against it is
  false.
- Animals.SeedAnimals: only the fields the modelled pages read are modelled. Descriptive breeding
  and health histories, lactation and insurance details are left out.
- AnimalRecords.RecordsView.Refresh: it states the stable order for ties. The source comparator
  leaves that order to the engine (see Findings), so the contract fixes one of the orders the
  source allows.
- The `maxLength` limits of the phone and code inputs are browser behaviour and are not modelled.
- The exception paths of `sendOTP` and `verifyOTP` cannot be reached in the source. The simulated
  delay never fails, so they are not modelled.
- IrisScan: the webcam device and file reading are not modelled; the image is a string parameter.
  Neither are the view mode toggle and `downloadImage`.
- AnimalStore.ThreeAddsScenario is a worked example of three additions and has no contract of its
  own.
- `ExportFileName` and `MilkFileName` only name their prefixes. Their property is stated once, by
  `Text.CsvFileNameDate`.

## Findings

| source | as written | input that shows it | evidently intended | confidence | as-written member | corrected member |
|---|---|---|---|---|---|---|
| src/pages/AnimalRecords.jsx:86-90 | the sort comparator returns `aValue > bValue ? 1 : -1` (ascending) or `aValue < bValue ? 1 : -1` (descending), never 0 | two records with the same breed, sorted by 'breed': compare(a, b) = compare(b, a) = -1, so the comparator is inconsistent and the order of ties is left to the engine | a consistent comparator returning 0 for equal keys, so that the sort is stable and ties keep their earlier order | not executed | AnimalRecords.CompareTiesInconsistent | AnimalRecords.CompareConsistent |
