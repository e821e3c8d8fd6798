/** The park-details screen: the slot grid, the photo list, and `handleSave`,
    which validates the form, normalises it and overwrites the one stored
    parking record. */
module ParkDetails {
  import opened Wrappers
  import opened Text
  import opened Storage

  // ---------------------------------------------------------------------------
  // Slot grid
  // ---------------------------------------------------------------------------

  const SlotRows: string := "ABCD"
  const SlotCols: seq<int> := [1, 2, 3, 4, 5, 6]

  /** The number of slot buttons. */
  const SlotCount: nat := |SlotRows| * |SlotCols|

  function DigitChar(n: int): char
    requires 0 <= n <= 9
  {
    ('0' as int + n) as char
  }

  /** The id `${row}${col}` of the button at `row`, `col`. */
  function SlotId(row: char, col: int): string
    requires 0 <= col <= 9
  {
    [row, DigitChar(col)]
  }

  /** A row letter of the grid followed by a column digit, 1 up to the
      number of columns. */
  predicate IsSlotId(s: string) {
    |s| == 2 && s[0] in SlotRows && '1' <= s[1] <= DigitChar(|SlotCols|)
  }

  /** The id of the `k`-th button, counting row by row. */
  function SlotAt(k: nat): string
    requires k < SlotCount
  {
    SlotId(SlotRows[k / |SlotCols|], SlotCols[k % |SlotCols|])
  }

  /** The `k`-th button's id is well formed, and its letter and digit give
      back its row and column. */
  lemma SlotAtShape(k: nat)
    requires k < SlotCount
    ensures IsSlotId(SlotAt(k))
    ensures SlotAt(k)[0] == SlotRows[k / |SlotCols|]
    ensures SlotAt(k)[1] as int - '1' as int == k % |SlotCols|
  {
  }

  /** No two buttons share an id. */
  lemma SlotAtInjective(a: nat, b: nat)
    requires a < SlotCount && b < SlotCount && SlotAt(a) == SlotAt(b)
    ensures a == b
  {
    SlotAtShape(a);
    SlotAtShape(b);
    assert SlotRows[a / |SlotCols|] == SlotRows[b / |SlotCols|];
    assert a / |SlotCols| == b / |SlotCols|;
  }

  /** Every well-formed id belongs to a button. */
  lemma SlotAtOnto(s: string) returns (k: nat)
    requires IsSlotId(s)
    ensures k < SlotCount && SlotAt(k) == s
  {
    var i :| 0 <= i < |SlotRows| && SlotRows[i] == s[0];
    k := i * |SlotCols| + (s[1] as int - '1' as int);
    assert k / |SlotCols| == i && k % |SlotCols| == s[1] as int - '1' as int;
  }

  /** The slot buttons, row by row: exactly the well-formed ids, each once. */
  function SlotGrid(): (g: seq<string>)
    ensures |g| == SlotCount
    ensures forall k :: 0 <= k < |g| ==> IsSlotId(g[k])
    ensures forall s :: IsSlotId(s) ==> s in g
    ensures forall a, b :: 0 <= a < b < |g| ==> g[a] != g[b]
  {
    var g := seq(SlotCount, k requires 0 <= k < SlotCount => SlotAt(k));
    SlotGridShape(g);
    g
  }

  lemma SlotGridShape(g: seq<string>)
    requires g == seq(SlotCount, k requires 0 <= k < SlotCount => SlotAt(k))
    ensures forall k :: 0 <= k < |g| ==> IsSlotId(g[k])
    ensures forall s :: IsSlotId(s) ==> s in g
    ensures forall a, b :: 0 <= a < b < |g| ==> g[a] != g[b]
  {
    forall k | 0 <= k < SlotCount
      ensures IsSlotId(g[k])
    {
      SlotAtShape(k);
    }
    forall s | IsSlotId(s)
      ensures s in g
    {
      var k := SlotAtOnto(s);
      assert g[k] == s;
    }
    forall a, b | 0 <= a < b < |g|
      ensures g[a] != g[b]
    {
      if g[a] == g[b] {
        SlotAtInjective(a, b);
      }
    }
  }

  // ---------------------------------------------------------------------------
  // Photos
  // ---------------------------------------------------------------------------

  const MaxPhotos: nat := 2

  /** What the gallery or camera picker hands back: permission refused, the
      user cancelled, or a list of assets (only the first is used). */
  datatype PickReply = AccessRefused | Canceled | Picked(uris: seq<string>)

  datatype PhotoAlert = LimitReached | PermissionDenied

  datatype PhotoStep = PhotoStep(photos: seq<string>, alert: Option<PhotoAlert>)

  /** `pickPhoto` / `takePhoto`: at the cap, refuse before asking for
      permission; otherwise append the first picked asset, if any. */
  function AddPhoto(photos: seq<string>, reply: PickReply): (r: PhotoStep)
    ensures photos <= r.photos && |r.photos| <= |photos| + 1
    ensures |photos| >= MaxPhotos ==> r == PhotoStep(photos, Some(LimitReached))
    ensures |r.photos| == |photos| + 1 <==> |photos| < MaxPhotos && reply.Picked? && reply.uris != []
    ensures |r.photos| == |photos| + 1 ==> r.photos[|photos|] == reply.uris[0]
    ensures r.alert == Some(LimitReached) <==> |photos| >= MaxPhotos
    ensures r.alert == Some(PermissionDenied) <==> |photos| < MaxPhotos && reply.AccessRefused?
    ensures |photos| < MaxPhotos && !reply.AccessRefused? ==> r.alert == None
  {
    if |photos| >= MaxPhotos then PhotoStep(photos, Some(LimitReached))
    else match reply
      case AccessRefused => PhotoStep(photos, Some(PermissionDenied))
      case Canceled => PhotoStep(photos, None)
      case Picked(uris) =>
        if uris != [] then PhotoStep(photos + [uris[0]], None) else PhotoStep(photos, None)
  }

  /** `prev.filter((_, i) => i !== index)` over the photos from position `pos`
      onwards. */
  function KeepOthers(photos: seq<string>, index: int, pos: int): (r: seq<string>)
    ensures |r| + (if pos <= index < pos + |photos| then 1 else 0) == |photos|
    decreases |photos|
  {
    if photos == [] then []
    else (if pos == index then [] else [photos[0]]) + KeepOthers(photos[1..], index, pos + 1)
  }

  /** No position of the list is `index`: the filter keeps everything. */
  lemma {:induction false} KeepOthersKeepsAll(photos: seq<string>, index: int, pos: int)
    requires !(pos <= index < pos + |photos|)
    ensures KeepOthers(photos, index, pos) == photos
    decreases |photos|
  {
    if photos != [] {
      KeepOthersKeepsAll(photos[1..], index, pos + 1);
      assert photos == [photos[0]] + photos[1..];
    }
  }

  /** Position `index` is in the list: the filter drops exactly that element. */
  lemma {:induction false} KeepOthersDropsIndex(photos: seq<string>, index: int, pos: int)
    requires pos <= index < pos + |photos|
    ensures KeepOthers(photos, index, pos) == photos[..index - pos] + photos[index - pos + 1..]
    decreases |photos|
  {
    var rest := photos[1..];
    if pos == index {
      KeepOthersKeepsAll(rest, index, pos + 1);
      assert KeepOthers(photos, index, pos) == rest;
      assert photos[..0] + photos[1..] == rest;
    } else {
      KeepOthersDropsIndex(rest, index, pos + 1);
      var j := index - pos;
      assert KeepOthers(photos, index, pos) == [photos[0]] + (rest[..j - 1] + rest[j..]);
      assert photos[..j] == [photos[0]] + rest[..j - 1];
      assert photos[j + 1..] == rest[j..];
    }
  }

  /** `removePhoto(index)`: drops exactly the photo at `index` and keeps the
      rest in order; an index outside the list changes nothing. */
  function RemovePhoto(photos: seq<string>, index: int): (r: seq<string>)
    ensures 0 <= index < |photos| ==> r == photos[..index] + photos[index + 1..]
    ensures 0 <= index < |photos| ==> multiset(r) + multiset{photos[index]} == multiset(photos)
    ensures !(0 <= index < |photos|) ==> r == photos
  {
    if 0 <= index < |photos| then
      KeepOthersDropsIndex(photos, index, 0);
      assert photos == photos[..index] + [photos[index]] + photos[index + 1..];
      KeepOthers(photos, index, 0)
    else
      KeepOthersKeepsAll(photos, index, 0);
      KeepOthers(photos, index, 0)
  }

  /** A photo-list change the screen can make. */
  datatype PhotoEdit = Add(reply: PickReply) | Remove(index: int)

  function ApplyPhotoEdits(photos: seq<string>, edits: seq<PhotoEdit>): seq<string>
    decreases |edits|
  {
    if edits == [] then photos
    else
      var next := match edits[0]
        case Add(reply) => AddPhoto(photos, reply).photos
        case Remove(index) => RemovePhoto(photos, index);
      ApplyPhotoEdits(next, edits[1..])
  }

  /** However the user adds and removes photos, starting from the screen's
      empty list, there are never more than two. */
  lemma {:induction false} PhotoEditsStayCapped(photos: seq<string>, edits: seq<PhotoEdit>)
    requires |photos| <= MaxPhotos
    ensures |ApplyPhotoEdits(photos, edits)| <= MaxPhotos
    decreases |edits|
  {
    if edits != [] {
      var next := match edits[0]
        case Add(reply) => AddPhoto(photos, reply).photos
        case Remove(index) => RemovePhoto(photos, index);
      assert |next| <= MaxPhotos;
      PhotoEditsStayCapped(next, edits[1..]);
    }
  }

  // ---------------------------------------------------------------------------
  // Validation and normalisation
  // ---------------------------------------------------------------------------

  /** The form's state when the save button is pressed. */
  datatype Form = Form(
    selectedSlot: Option<string>,
    carNumber: string,
    personName: string,
    personId: string,
    photos: seq<string>,
    saving: bool)

  datatype Field = Slot | CarNumber | PersonName

  datatype Verdict = Complete | Missing(field: Field)

  /** `!selectedSlot` is false: a slot is picked (null and "" are falsy). */
  predicate SlotChosen(slot: Option<string>) {
    slot.Some? && slot.value != ""
  }

  /** The three checks of `handleSave`, in order; the first that fails is the
      one reported. The optional id is never checked. */
  function Validate(f: Form): (v: Verdict)
    ensures v == Missing(Slot) <==> !SlotChosen(f.selectedSlot)
    ensures v == Missing(CarNumber) <==> SlotChosen(f.selectedSlot) && AllSpace(f.carNumber)
    ensures v == Missing(PersonName) <==>
      SlotChosen(f.selectedSlot) && !AllSpace(f.carNumber) && AllSpace(f.personName)
    ensures v == Complete <==>
      SlotChosen(f.selectedSlot) && !AllSpace(f.carNumber) && !AllSpace(f.personName)
  {
    if !SlotChosen(f.selectedSlot) then Missing(Slot)
    else if Blank(f.carNumber) then Missing(CarNumber)
    else if Blank(f.personName) then Missing(PersonName)
    else Complete
  }

  /** A record in the shape `handleSave` writes it: car number trimmed and
      upper-cased, attendant name and id trimmed. */
  predicate Normalised(r: ParkingRecord) {
    && Trim(r.carNumber) == r.carNumber
    && Upper(r.carNumber) == r.carNumber
    && Trim(r.personName) == r.personName
    && Trim(r.personId) == r.personId
  }

  /** The object literal `handleSave` builds from the form, the device
      position and the current time. */
  function Normalise(f: Form, coords: Coords, timestamp: string): (r: ParkingRecord)
    requires f.selectedSlot.Some?
    ensures Normalised(r)
    ensures r.carNumber == Upper(Trim(f.carNumber))
    ensures r.personName == Trim(f.personName) && r.personId == Trim(f.personId)
    ensures r.slot == f.selectedSlot.value && r.photos == f.photos
    ensures r.coords == coords && r.timestamp == timestamp
    ensures r.carNumber == [] <==> AllSpace(f.carNumber)
    ensures r.personName == [] <==> AllSpace(f.personName)
  {
    CarNumberForm(f.carNumber);
    TrimIdempotent(f.personName);
    TrimIdempotent(f.personId);
    ParkingRecord(coords, f.selectedSlot.value, Upper(Trim(f.carNumber)), Trim(f.personName),
                  Trim(f.personId), f.photos, timestamp)
  }

  /** An upper-cased trimmed car number is its own trim and its own
      upper-case, and is empty only for an all-whitespace input. */
  lemma CarNumberForm(car: string)
    ensures Trim(Upper(Trim(car))) == Upper(Trim(car))
    ensures Upper(Upper(Trim(car))) == Upper(Trim(car))
    ensures Upper(Trim(car)) == [] <==> AllSpace(car)
  {
    var t := Trim(car);
    TrimIdempotent(car);
    TrimUpperCommute(t);
    UpperIdempotent(t);
  }

  /** Typing a saved record back into the form and saving it again gives the
      same record: normalisation is idempotent. */
  lemma NormaliseStable(r: ParkingRecord, saving: bool)
    requires Normalised(r)
    ensures Normalise(Form(Some(r.slot), r.carNumber, r.personName, r.personId, r.photos, saving),
                      r.coords, r.timestamp) == r
  {
  }

  // ---------------------------------------------------------------------------
  // handleSave
  // ---------------------------------------------------------------------------

  /** What asking for the device position produced: permission refused, a
      position, or an exception from the permission request or the fix. */
  datatype LocationReply = Denied | Located(coords: Coords) | LocationThrew

  datatype SaveOutcome =
    | Rejected(field: Field)
    | PermissionRefused
    | SaveFailed
    | Saved(record: ParkingRecord)

  /** The outcome, the store afterwards, and the values assigned to `saving`
      in order. */
  datatype SaveStep = SaveStep(outcome: SaveOutcome, store: Store, savingWrites: seq<bool>)

  /** How `handleSave` ends, which does not depend on what is stored:
      the first failed check, the permission refusal, an exception (from the
      permission request, the position fix or the write), or the record
      written. `writeSucceeds` is whether `AsyncStorage.setItem` resolves. */
  function SaveOutcomeOf(f: Form, location: LocationReply, writeSucceeds: bool, now: string)
    : (o: SaveOutcome)
    ensures o.Rejected? <==> Validate(f).Missing?
    ensures o.Rejected? ==> o.field == Validate(f).field
    ensures o == PermissionRefused <==> Validate(f) == Complete && location == Denied
    ensures o.Saved? <==> Validate(f) == Complete && location.Located? && writeSucceeds
    ensures o.Saved? ==> o.record == Normalise(f, location.coords, now)
    ensures o.Saved? ==> o.record.slot != [] && o.record.carNumber != [] && o.record.personName != []
  {
    match Validate(f)
    case Missing(field) => Rejected(field)
    case Complete =>
      match location
      case Denied => PermissionRefused
      case LocationThrew => SaveFailed
      case Located(coords) =>
        if writeSucceeds then Saved(Normalise(f, coords, now)) else SaveFailed
  }

  /** `handleSave`: a save either writes the record under the one key, or,
      when a check fails, permission is refused or an exception is thrown,
      leaves storage as it was (a rejected write is taken to change nothing).
      `saving` is set to true only once the checks pass, and then back to
      false on every path out. */
  function HandleSave(f: Form, store: Store, location: LocationReply, writeSucceeds: bool, now: string)
    : (s: SaveStep)
    ensures s.outcome == SaveOutcomeOf(f, location, writeSucceeds, now)
    ensures s.outcome.Saved? ==> s.store == SetItem(store, ParkedKey, Json(Stored(s.outcome.record)))
    ensures !s.outcome.Saved? ==> s.store == store
    ensures s.outcome.Rejected? ==> s.savingWrites == []
    ensures !s.outcome.Rejected? ==> s.savingWrites == [true, false]
  {
    var o := SaveOutcomeOf(f, location, writeSucceeds, now);
    match o
    // A failed check returns before `saving` is touched.
    case Rejected(_) => SaveStep(o, store, [])
    // `saving` is set once the checks pass; the refusal resets it and returns.
    case PermissionRefused => SaveStep(o, store, [true, false])
    // The `catch` resets it after the permission request, the fix or the
    // write throws.
    case SaveFailed => SaveStep(o, store, [true, false])
    // It is reset after the write resolves.
    case Saved(record) => SaveStep(o, SetItem(store, ParkedKey, Json(Stored(record))), [true, false])
  }

  /** The value of `saving` once a call has returned, given its value before
      and the assignments the call made. */
  function SavingAfter(before: bool, writes: seq<bool>): bool {
    if writes == [] then before else writes[|writes| - 1]
  }

  /** The save button is disabled while `saving` holds, so `handleSave` starts
      with it false; on every exit path it is false again, and when the call
      set it at all it set it to true first. */
  lemma SavingSettles(f: Form, store: Store, location: LocationReply, writeSucceeds: bool, now: string)
    requires !f.saving
    ensures !SavingAfter(f.saving, HandleSave(f, store, location, writeSucceeds, now).savingWrites)
    ensures var w := HandleSave(f, store, location, writeSucceeds, now).savingWrites;
      w != [] ==> w[0] && !w[|w| - 1]
  {
  }
}
