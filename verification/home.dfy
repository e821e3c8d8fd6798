/** The home screen: a `hasParked` flag re-read from storage on mount and on
    every one-second tick, the "END SESSION" action, and the controls that
    depend on the flag. */
module Home {
  import opened Wrappers
  import opened Storage

  datatype Screen = Screen(hasParked: bool)

  /** `useState(false)`: the flag before the first check resolves. */
  const Mounted: Screen := Screen(false)

  /** `checkParkedLocation`: the flag is recomputed from the stored value
      alone; the previous flag plays no part. */
  function CheckParkedLocation(store: Store): (h: Screen)
    ensures h.hasParked <==> ParkedKey in store && store[ParkedKey] != Unparsable("")
  {
    Screen(HasSession(store))
  }

  datatype HomeStep = HomeStep(store: Store, screen: Screen)

  /** `clearParking`: removes the key and drops the flag. Clearing when there
      is no session is allowed and ends in the same place. */
  function ClearParking(store: Store): (s: HomeStep)
    ensures ParkedKey !in s.store && !HasSession(s.store)
    ensures forall k :: k != ParkedKey ==> GetItem(s.store, k) == GetItem(store, k)
    ensures !s.screen.hasParked
  {
    HomeStep(RemoveItem(store, ParkedKey), Screen(false))
  }

  /** Clearing twice is clearing once. */
  lemma ClearIdempotent(store: Store)
    ensures ClearParking(ClearParking(store).store) == ClearParking(store)
  {
    var once := ClearParking(store).store;
    assert RemoveItem(once, ParkedKey) == once;
  }

  const StatusActive: string := "SESSION ACTIVE"
  const StatusIdle: string := "NO SESSION"

  /** What the flag switches on the screen: whether "Find My Car" responds,
      whether "END SESSION" is shown, and the status strip's text. */
  datatype Controls = Controls(findMyCarEnabled: bool, endSessionShown: bool, status: string)

  function ControlsOf(h: Screen): (c: Controls)
    ensures c.findMyCarEnabled == h.hasParked
    ensures c.findMyCarEnabled == c.endSessionShown
    ensures c.status == StatusActive <==> c.findMyCarEnabled
    ensures c.status in {StatusActive, StatusIdle}
  {
    Controls(h.hasParked, h.hasParked, if h.hasParked then StatusActive else StatusIdle)
  }

  // ---------------------------------------------------------------------------
  // The screen over time
  // ---------------------------------------------------------------------------

  /** Storage as the home screen sees it, and the screen's flag. */
  datatype World = World(store: Store, screen: Screen)

  /** A poll tick, the user ending the session, or another screen writing or
      removing the key while this one is mounted. */
  datatype Event = Tick | EndSession | OutsideWrite(entry: Entry) | OutsideRemove

  /** One thing happening while the home screen is mounted. A tick re-reads
      storage and changes nothing in it; "END SESSION" empties the key and
      drops the flag; a write or removal by another screen changes the key but
      leaves the flag as it was until the next tick. No event touches any
      other key. */
  function Step(w: World, e: Event): (r: World)
    ensures forall k :: k != ParkedKey ==> GetItem(r.store, k) == GetItem(w.store, k)
    ensures e == Tick ==> r.store == w.store && Agrees(r)
    ensures e == EndSession ==> ParkedKey !in r.store && !r.screen.hasParked
    ensures e.OutsideWrite? ==> GetItem(r.store, ParkedKey) == Some(e.entry) && r.screen == w.screen
    ensures e == OutsideRemove ==> ParkedKey !in r.store && r.screen == w.screen
  {
    match e
    case Tick => World(w.store, CheckParkedLocation(w.store))
    case EndSession =>
      var s := ClearParking(w.store);
      World(s.store, s.screen)
    case OutsideWrite(entry) => World(SetItem(w.store, ParkedKey, entry), w.screen)
    case OutsideRemove => World(RemoveItem(w.store, ParkedKey), w.screen)
  }

  /** A run of events from a given world: whatever happens, only the parked
      location key changes. */
  function Run(w: World, events: seq<Event>): (r: World)
    ensures forall k :: k != ParkedKey ==> GetItem(r.store, k) == GetItem(w.store, k)
    decreases |events|
  {
    if events == [] then w else Run(Step(w, events[0]), events[1..])
  }

  /** The flag shows what storage holds. */
  predicate Agrees(w: World) {
    w.screen.hasParked == HasSession(w.store)
  }

  lemma {:induction false} RunLast(w: World, events: seq<Event>)
    requires events != []
    ensures Run(w, events) == Step(Run(w, events[..|events| - 1]), events[|events| - 1])
    decreases |events|
  {
    if |events| > 1 {
      RunLast(Step(w, events[0]), events[1..]);
      assert events[1..][..|events| - 2] == events[..|events| - 1][1..];
    }
  }

  /** Writes from elsewhere can leave the flag stale, but only until the next
      tick: whatever happened before, after a tick or an "END SESSION" the
      flag agrees with storage, and so do the controls. */
  lemma {:induction false} SettledAfterTick(w: World, events: seq<Event>)
    requires events != [] && events[|events| - 1] in {Tick, EndSession}
    ensures Agrees(Run(w, events))
    ensures ControlsOf(Run(w, events).screen).findMyCarEnabled <==> HasSession(Run(w, events).store)
  {
    RunLast(w, events);
  }

  /** With no writer but this screen, the flag never disagrees with storage
      once the mount-time check has run. */
  lemma {:induction false} AgreesWithoutOtherWriters(w: World, events: seq<Event>)
    requires Agrees(w)
    requires forall k :: 0 <= k < |events| ==> events[k] in {Tick, EndSession}
    ensures Agrees(Run(w, events))
    decreases |events|
  {
    if events != [] {
      AgreesWithoutOtherWriters(Step(w, events[0]), events[1..]);
    }
  }

  /** From mount on, with no writer but this screen: the flag starts false,
      the mount-time check sets it from storage, and it tracks storage from
      then on. */
  lemma MountedTracksStorage(store: Store, events: seq<Event>)
    requires events != [] && events[0] == Tick
    requires forall k :: 0 <= k < |events| ==> events[k] in {Tick, EndSession}
    ensures Agrees(Run(World(store, Mounted), events))
  {
    AgreesWithoutOtherWriters(Step(World(store, Mounted), Tick), events[1..]);
  }
}
