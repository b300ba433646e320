/**
 * The iris-scan page: an image is captured, "processed" into one of five fixed breed profiles
 * picked at random, and can then be saved as a new record in the store.
 */
module IrisScan {
  import opened Wrappers
  import opened Text
  import opened Animals
  import opened AnimalStore

  datatype ScanTraits = ScanTraits(
    color: string, horns: string, milkType: string, weight: string, height: string, age: string)

  /** A scan result; the confidence is kept in tenths of a percent. */
  datatype BreedProfile = BreedProfile(
    breed: string,
    confidenceTenths: int,
    animalId: string,
    traits: ScanTraits,
    healthStatus: string,
    vaccinationStatus: string,
    insuranceStatus: string)

  /** The two-letter prefix of each profile's displayed code. */
  function CodePrefix(k: nat): string
    requires k < 5
  {
    ["CT", "BF", "JR", "SW", "GR"][k]
  }

  /** The profiles, in the order they are listed: Holstein Friesian, Murrah, Jersey, Sahiwal, Gir. */
  function Profile(k: nat, now: nat): (p: BreedProfile)
    requires k < 5
    ensures 0 <= p.confidenceTenths <= 1000
    ensures p.animalId == CodePrefix(k) + TakeLast(NatToString(now), 3)
    ensures p.healthStatus == "Good" && p.vaccinationStatus == "Up to date" && p.insuranceStatus == "Active"
  {
    var code := CodePrefix(k) + TakeLast(NatToString(now), 3);
    var (breed, confidence, traits) :=
      if k == 0 then ("Holstein Friesian", 945,
        ScanTraits("Black and White", "No", "High Yield", "450 kg", "140 cm", "3-4 years"))
      else if k == 1 then ("Murrah Buffalo", 923,
        ScanTraits("Black", "Yes", "High Fat", "550 kg", "135 cm", "4-5 years"))
      else if k == 2 then ("Jersey", 897,
        ScanTraits("Light Brown", "No", "High Butterfat", "350 kg", "120 cm", "3-4 years"))
      else if k == 3 then ("Sahiwal", 912,
        ScanTraits("Reddish Brown", "Small", "Medium Yield", "400 kg", "130 cm", "3-4 years"))
      else ("Gir", 889,
        ScanTraits("White with Red Spots", "Curved", "High Yield", "425 kg", "135 cm", "3-4 years"));
    BreedProfile(breed, confidence, code, traits, "Good", "Up to date", "Active")
  }

  /** The add request `saveAnimal` builds from a result, the image and a yield. */
  function ScanPatch(p: BreedProfile, image: string, milkYield: int): Patch {
    NoChanges.(
      breed := Some(p.breed),
      color := Some(p.traits.color),
      horns := Some(p.traits.horns),
      milkType := Some(p.traits.milkType),
      age := Some(p.traits.age),
      owner := Some("Current User"),
      milkYield := Some(milkYield),
      image := Some(image),
      traits := Some(Traits(p.traits.weight, p.traits.height, p.vaccinationStatus, p.insuranceStatus)))
  }

  /**
   * The record a saved scan becomes: the scan's breed and traits, owner 'Current User', the given
   * yield, and the store's own code for the next record; the scan's displayed code is dropped.
   */
  lemma SavedRecord(p: BreedProfile, image: string, milkYield: int, count: nat, now: nat)
    ensures var r := NewRecord(ScanPatch(p, image, milkYield), count, now);
      && r.animalId == AnimalCode(count + 1)
      && r.id == NatToString(now)
      && r.breed == p.breed && r.color == p.traits.color && r.horns == p.traits.horns
      && r.milkType == p.traits.milkType && r.age == p.traits.age
      && r.owner == "Current User" && r.milkYield == Some(milkYield) && r.image == image
      && r.traits == Some(Traits(p.traits.weight, p.traits.height, p.vaccinationStatus, p.insuranceStatus))
      && r.breeding.None? && r.health.None?
  {
  }

  /** Apart from the cattle profile, the displayed code never survives the save. */
  lemma DisplayedCodeDiscarded(k: nat, image: string, milkYield: int, count: nat, now: nat)
    requires 0 < k < 5
    ensures NewRecord(ScanPatch(Profile(k, now), image, milkYield), count, now).animalId != Profile(k, now).animalId
  {
    var p := Profile(k, now);
    var code := CodePrefix(k);
    assert |code| == 2 && code != "CT";
    assert p.animalId[..2] == code;
    var patch := ScanPatch(p, image, milkYield);
    assert patch.animalId.None?;
    var r := NewRecord(patch, count, now);
    assert r.animalId[..2] == "CT";
  }

  class ScanSession {
    var capturedImage: Option<string>
    var isProcessing: bool
    var scanResults: Option<BreedProfile>
    var showResults: bool

    /** Results are shown exactly when there are some, and only for a captured image. */
    ghost predicate Valid()
      reads this
    {
      (showResults <==> scanResults.Some?) && (scanResults.Some? ==> capturedImage.Some?) && !isProcessing
    }

    constructor Open()
      ensures Valid()
      ensures capturedImage.None? && scanResults.None? && !showResults && !isProcessing
    {
      capturedImage := None;
      isProcessing := false;
      scanResults := None;
      showResults := false;
    }

    /** A photo from the camera or an uploaded file becomes the captured image. */
    method Capture(image: string)
      requires Valid()
      modifies this
      ensures Valid() && capturedImage == Some(image)
      ensures scanResults == old(scanResults) && showResults == old(showResults)
    {
      capturedImage := Some(image);
    }

    /**
     * `processImage`: nothing without an image; otherwise the result is one of the five profiles,
     * shown, and processing is over.
     */
    method ProcessImage(now: nat)
      requires Valid()
      modifies this
      ensures Valid() && capturedImage == old(capturedImage)
      ensures old(capturedImage).None? ==> scanResults == old(scanResults) && showResults == old(showResults)
      ensures old(capturedImage).Some? ==>
        showResults && !isProcessing && exists k :: 0 <= k < 5 && scanResults == Some(Profile(k, now))
    {
      if capturedImage.None? {
        return;
      }
      isProcessing := true;
      var k :| 0 <= k < 5;
      scanResults := Some(Profile(k, now));
      showResults := true;
      isProcessing := false;
    }

    /**
     * `saveAnimal`: nothing without a result; otherwise adds the scanned record to the store, and
     * to its persisted copy, with a yield from 15 to 34 litres.
     */
    method SaveAnimal(store: Store, now: nat) returns (saved: Option<Animal>)
      requires Valid() && store.Valid()
      modifies store
      ensures store.Valid()
      ensures scanResults.None? ==> saved.None? && store.animals == old(store.animals)
      ensures scanResults.None? ==> store.stored == old(store.stored)
      ensures scanResults.Some? ==> saved.Some?
      ensures saved.Some? ==> store.animals[..] == old(store.animals[..]) + [saved.value]
      ensures saved.Some? ==> store.stored == store.animals[..]
      ensures saved.Some? ==> saved.value.milkYield.Some? && 15 <= saved.value.milkYield.value <= 34
      ensures saved.Some? ==> scanResults.Some? && capturedImage.Some? && saved.value.milkYield.Some?
      ensures saved.Some? ==>
        var data := ScanPatch(scanResults.value, capturedImage.value, saved.value.milkYield.value);
        saved.value == NewRecord(data, old(store.animals.Length), now)
    {
      if scanResults.None? {
        return None;
      }
      var milkYield :| 15 <= milkYield <= 34;
      var added := store.Add(ScanPatch(scanResults.value, capturedImage.value, milkYield), now);
      saved := Some(added);
    }

    /** `resetScan`: back to the start. */
    method ResetScan()
      modifies this
      ensures Valid()
      ensures capturedImage.None? && scanResults.None? && !showResults && !isProcessing
    {
      capturedImage := None;
      scanResults := None;
      showResults := false;
      isProcessing := false;
    }
  }
}
