/** The parking session across the three screens: a two-state machine
    (no session / session active) over the one stored record, with the save
    on the park-details screen, the check and "END SESSION" on the home
    screen, and the read on the map screen all meeting at the same key. */
module Session {
  import opened Wrappers
  import opened Text
  import opened Storage
  import opened ParkDetails
  import opened Home
  import opened MapScreen

  datatype Phase = Empty | Active

  function PhaseOf(store: Store): (p: Phase)
    ensures p == Active <==> HasSession(store)
  {
    if HasSession(store) then Active else Empty
  }

  /** The two user actions that change storage. */
  datatype Action =
    | Save(form: Form, location: LocationReply, writeSucceeds: bool, now: string)
    | Clear

  function Apply(store: Store, a: Action): Store {
    match a
    case Save(f, location, ok, now) => HandleSave(f, store, location, ok, now).store
    case Clear => ClearParking(store).store
  }

  predicate SaveSucceeds(store: Store, a: Action)
    requires a.Save?
  {
    HandleSave(a.form, store, a.location, a.writeSucceeds, a.now).outcome.Saved?
  }

  /** Empty --save--> Active, Active --save--> Active, any --clear--> Empty;
      a save that does not get as far as the write leaves the phase, and the
      whole store, as it was. */
  lemma Transitions(store: Store, a: Action)
    ensures a.Clear? ==> PhaseOf(Apply(store, a)) == Empty
    ensures a.Save? && SaveSucceeds(store, a) ==> PhaseOf(Apply(store, a)) == Active
    ensures a.Save? && !SaveSucceeds(store, a) ==> Apply(store, a) == store
  {
    match a
    case Clear =>
    case Save(f, location, ok, now) =>
      var s := HandleSave(f, store, location, ok, now);
      if s.outcome.Saved? {
        assert GetItem(s.store, ParkedKey) == Some(Json(Stored(s.outcome.record)));
      }
  }

  /** The home screen's check and the map screen's read apply the same
      `!stored` test: both treat a missing key and "" alike. */
  lemma PresenceMatchesLoad(store: Store)
    ensures CheckParkedLocation(store).hasParked <==> LoadData(store) != NoRecord
  {
  }

  /** When the key is absent or holds an object, which covers everything the
      app itself writes, "SESSION ACTIVE" on the home screen and the details
      panel on the map screen go together. */
  lemma PresenceMatchesView(store: Store, localise: string -> string)
    requires ParkedKey !in store || store[ParkedKey].Json?
    ensures CheckParkedLocation(store).hasParked <==> Render(DataOf(LoadData(store)), localise).Details?
    ensures ControlsOf(CheckParkedLocation(store)).status == StatusActive
            <==> Render(DataOf(LoadData(store)), localise).Details?
  {
  }

  /** They can part ways for a value written from elsewhere: a stored JSON
      null (or false, 0, "") unlocks "Find My Car" and reads "SESSION ACTIVE"
      at home, while the map screen shows "NO ACTIVE SESSION". */
  lemma FalsyJsonDiverges(store: Store, localise: string -> string)
    requires ParkedKey in store && store[ParkedKey] == NonObject(false)
    ensures ControlsOf(CheckParkedLocation(store)).status == StatusActive
    ensures ControlsOf(CheckParkedLocation(store)).findMyCarEnabled
    ensures Render(DataOf(LoadData(store)), localise) == EmptyState
  {
  }

  /** After a save that passes the checks, gets a position and whose write
      resolves, the next tick unlocks "Find My Car", offers "END SESSION" and
      shows "SESSION ACTIVE". */
  lemma SaveThenTick(f: Form, store: Store, location: LocationReply, ok: bool, now: string)
    requires SlotChosen(f.selectedSlot) && !AllSpace(f.carNumber) && !AllSpace(f.personName)
    requires location.Located? && ok
    ensures var c := ControlsOf(CheckParkedLocation(HandleSave(f, store, location, ok, now).store));
      c.findMyCarEnabled && c.endSessionShown && c.status == StatusActive
  {
  }

  /** A save that passes the three checks, gets a position and whose write
      resolves succeeds, and writes the normalised record under the key and
      nothing else. */
  lemma SavedRecord(f: Form, store: Store, location: LocationReply, ok: bool, now: string)
    returns (r: ParkingRecord)
    requires SlotChosen(f.selectedSlot) && !AllSpace(f.carNumber) && !AllSpace(f.personName)
    requires location.Located? && ok
    ensures HandleSave(f, store, location, ok, now).outcome == Saved(r)
    ensures r == Normalise(f, location.coords, now)
    ensures HandleSave(f, store, location, ok, now).store == SetItem(store, ParkedKey, Json(Stored(r)))
    ensures r.slot != [] && r.carNumber != [] && r.personName != []
  {
    r := HandleSave(f, store, location, ok, now).outcome.record;
  }

  /** The details panel for a record with every field filled in shows the
      fields themselves, never a stand-in. */
  lemma RenderStored(r: ParkingRecord, localise: string -> string)
    requires r.slot != [] && r.carNumber != [] && r.personName != [] && r.timestamp != []
    ensures Render(Some(Stored(r)), localise) == Details(Panel(
      r.carNumber, r.slot, localise(r.timestamp), [UpperChar(r.personName[0])], r.personName,
      if r.personId == [] then None else Some("ID: " + r.personId), r.photos))
  {
  }

  /** What was saved is what the map screen shows: the normalised car number,
      the chosen slot, the trimmed name with its initial (never a dash or
      "?"), the id line exactly when an id was typed, the photos in order, and
      a link to the saved position. */
  lemma SaveThenView(f: Form, store: Store, location: LocationReply, ok: bool, now: string,
                     localise: string -> string)
    requires SlotChosen(f.selectedSlot) && !AllSpace(f.carNumber) && !AllSpace(f.personName)
    requires location.Located? && ok
    requires now != ""
    ensures var l := LoadData(HandleSave(f, store, location, ok, now).store);
      && l.Loaded?
      && RequestsLocation(l)
      && Render(DataOf(l), localise) == Details(Panel(
           Upper(Trim(f.carNumber)),
           f.selectedSlot.value,
           localise(now),
           [UpperChar(Trim(f.personName)[0])],
           Trim(f.personName),
           if AllSpace(f.personId) then None else Some("ID: " + Trim(f.personId)),
           f.photos))
      && Destination(OpenNavigation(DataOf(l)).value)
         == SplitAtComma(location.coords.latitude.rendering + "," + location.coords.longitude.rendering)
  {
    var r := SavedRecord(f, store, location, ok, now);
    var l := LoadData(HandleSave(f, store, location, ok, now).store);
    assert l == Loaded(Stored(r));
    RenderStored(r, localise);
    assert (r.personId == []) == AllSpace(f.personId);
    LinkDestination(Some(Stored(r)));
  }

  /** Saving B after A leaves only B: the map screen reads B, and the store
      after B does not depend on which session, if any, was there before. */
  lemma SaveOverwrites(fa: Form, fb: Form, store: Store, la: LocationReply, lb: LocationReply,
                       okA: bool, okB: bool, nowA: string, nowB: string, other: Store)
    requires SlotChosen(fa.selectedSlot) && !AllSpace(fa.carNumber) && !AllSpace(fa.personName)
    requires la.Located? && okA
    requires SlotChosen(fb.selectedSlot) && !AllSpace(fb.carNumber) && !AllSpace(fb.personName)
    requires lb.Located? && okB
    requires other - {ParkedKey} == store - {ParkedKey}
    ensures var sa := HandleSave(fa, store, la, okA, nowA);
      var sb := HandleSave(fb, sa.store, lb, okB, nowB);
      && LoadData(sb.store) == Loaded(Stored(sb.outcome.record))
      && sb.store == HandleSave(fb, other, lb, okB, nowB).store
  {
    var sa := HandleSave(fa, store, la, okA, nowA);
    var ea := Json(Stored(sa.outcome.record));
    var rb := SaveOutcomeOf(fb, lb, okB, nowB).record;
    SetItemTwice(store, ParkedKey, ea, Json(Stored(rb)));
    SetItemForgets(store, other, ParkedKey, Json(Stored(rb)));
  }

  /** After "END SESSION" the map screen finds nothing: it shows the empty
      state and does not ask for the device position. */
  lemma ClearThenView(store: Store, localise: string -> string)
    ensures var l := LoadData(ClearParking(store).store);
      && l == NoRecord
      && !RequestsLocation(l)
      && Render(DataOf(l), localise) == EmptyState
      && OpenNavigation(DataOf(l)).None?
  {
  }
}
