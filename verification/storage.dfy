/** The device's key-value store (AsyncStorage) and the one parking record the
    screens keep in it. Values are strings on the device; here a value is the
    JSON text of an object, abstracted to the fields the screens read, the
    JSON text of some other value, or a text `JSON.parse` rejects. */
module Storage {
  import opened Wrappers

  /** A latitude or a longitude in degrees. Kept opaque: only the text
      JavaScript's default number-to-string conversion gives for it is used. */
  datatype Degrees = Degrees(rendering: string)

  datatype Coords = Coords(latitude: Degrees, longitude: Degrees)

  /** The object the park-details screen serialises on a successful save. */
  datatype ParkingRecord = ParkingRecord(
    coords: Coords,
    slot: string,
    carNumber: string,
    personName: string,
    personId: string,
    photos: seq<string>,
    timestamp: string)

  /** The same object as `JSON.parse` gives it back to the map screen: any
      field can be missing from a stored object. */
  datatype ParsedRecord = ParsedRecord(
    coords: Option<Coords>,
    slot: Option<string>,
    carNumber: Option<string>,
    personName: Option<string>,
    personId: Option<string>,
    photos: Option<seq<string>>,
    timestamp: Option<string>)

  /** A stored string, by what `JSON.parse` makes of it:
      - `Json`: the text of an object, kept as the fields the screens read.
        A field that is present is taken to have the type the app writes
        (a string, a list of strings, or coordinates of two numbers); an
        object with a field of another type is outside the model's domain;
      - `NonObject`: the text of null, a boolean, a number, a string or an
        array. Reading a field of such a value gives undefined, so only
        whether the value itself is truthy matters (null, false, 0 and ""
        are not);
      - `Unparsable`: a text `JSON.parse` throws on, the empty string
        included. Which texts those are is not computed here: building an
        `Unparsable` entry from valid JSON, such as "null", is outside the
        model's domain; a JSON value that is not an object is a
        `NonObject`. */
  datatype Entry = Json(record: ParsedRecord) | NonObject(truthy: bool) | Unparsable(raw: string)

  type Store = map<string, Entry>

  /** The single key every screen reads and writes. */
  const ParkedKey: string := "PARKED_LOCATION"

  /** The full record, when every field of a parsed object is present. */
  function Recover(p: ParsedRecord): Option<ParkingRecord> {
    if && p.coords.Some? && p.slot.Some? && p.carNumber.Some? && p.personName.Some?
       && p.personId.Some? && p.photos.Some? && p.timestamp.Some?
    then Some(ParkingRecord(p.coords.value, p.slot.value, p.carNumber.value, p.personName.value,
                            p.personId.value, p.photos.value, p.timestamp.value))
    else None
  }

  /** What `JSON.parse(JSON.stringify(r))` yields: the round trip through
      JSON text loses nothing, so the saved record can be read back whole. */
  function Stored(r: ParkingRecord): (s: ParsedRecord)
    ensures Recover(s) == Some(r)
  {
    ParsedRecord(Some(r.coords), Some(r.slot), Some(r.carNumber), Some(r.personName),
                 Some(r.personId), Some(r.photos), Some(r.timestamp))
  }

  /** `AsyncStorage.getItem(key)`: null when the key is absent. */
  function GetItem(store: Store, key: string): (v: Option<Entry>)
    ensures v.Some? <==> key in store
    ensures v.Some? ==> v.value == store[key]
  {
    if key in store then Some(store[key]) else None
  }

  /** `AsyncStorage.setItem(key, value)`: replaces whatever was under `key`
      and leaves every other key alone. */
  function SetItem(store: Store, key: string, value: Entry): (s: Store)
    ensures GetItem(s, key) == Some(value)
    ensures forall k :: k != key ==> GetItem(s, k) == GetItem(store, k)
    ensures s.Keys == store.Keys + {key}
  {
    store[key := value]
  }

  /** `AsyncStorage.removeItem(key)`: the key is absent afterwards, whether or
      not it was present before; every other key is left alone. */
  function RemoveItem(store: Store, key: string): (s: Store)
    ensures GetItem(s, key) == None
    ensures forall k :: k != key ==> GetItem(s, k) == GetItem(store, k)
    ensures s.Keys == store.Keys - {key}
  {
    store - {key}
  }

  /** `!!stored`: a value is there and it is not the empty string. JSON text
      is never empty, so only a text `JSON.parse` rejects can be falsy; what
      the text would parse to plays no part. */
  predicate Truthy(v: Option<Entry>): (b: bool)
    ensures b <==> v.Some? && v.value != Unparsable("")
  {
    match v
    case None => false
    case Some(Json(_)) => true
    case Some(NonObject(_)) => true
    case Some(Unparsable(raw)) => raw != ""
  }

  /** Whether the parked-location key holds a truthy value: the test both the
      home screen and the map screen apply. */
  predicate HasSession(store: Store): (b: bool)
    ensures b <==> ParkedKey in store && store[ParkedKey] != Unparsable("")
  {
    Truthy(GetItem(store, ParkedKey))
  }

  /** A second write under a key hides the first completely. */
  lemma SetItemTwice(store: Store, key: string, first: Entry, second: Entry)
    ensures SetItem(SetItem(store, key, first), key, second) == SetItem(store, key, second)
  {
  }

  /** A write under a key leaves a store that depends only on the other keys
      and the value written. */
  lemma SetItemForgets(a: Store, b: Store, key: string, value: Entry)
    requires a - {key} == b - {key}
    ensures SetItem(a, key, value) == SetItem(b, key, value)
  {
    var x := SetItem(a, key, value);
    var y := SetItem(b, key, value);
    forall k | k in x
      ensures k in y && x[k] == y[k]
    {
      if k != key {
        assert k in a - {key};
      }
    }
    forall k | k in y
      ensures k in x
    {
      if k != key {
        assert k in b - {key};
      }
    }
  }
}
