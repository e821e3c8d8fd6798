# Parking tracker: the parking-session register

A Dafny model of the one piece of logic in the parking-tracker app. The app
keeps a single "where I parked" record under the storage key
`PARKED_LOCATION`. Three screens use it:

- **Park details** (`app/park-details.tsx`). The user picks a slot from a 4×6
  grid, types the car number, the attendant's name and an optional id, and
  attaches up to two photos. `handleSave` then checks the form in a fixed
  order, normalises the text fields, reads the device position and
  overwrites the stored record.
- **Home** (`app/index.tsx`). It re-reads the key on mount and every second
  into a `hasParked` flag. That flag unlocks "Find My Car", shows
  "END SESSION" (which removes the key) and sets the status strip.
- **Map** (`app/map.tsx`). It reads the record once. It shows an empty state
  when there is none. Otherwise it shows the details panel with "—" stand-ins
  and builds a Google Maps directions link from the coordinates.

Together these form a two-state machine (no session / session active) over one
storage cell.

Modules, one per concern:

| file | module | contents |
|---|---|---|
| `wrappers.dfy` | `Wrappers` | `Option` (null / undefined / missing key) |
| `text.dfy` | `Text` | JavaScript `trim` and `toUpperCase` |
| `storage.dfy` | `Storage` | the key-value store, the stored record, `!!stored` |
| `park_details.dfy` | `ParkDetails` | slot grid, photo list, validation, normalisation, `handleSave` |
| `home.dfy` | `Home` | `checkParkedLocation`, `clearParking`, controls, polling over time |
| `map_screen.dfy` | `MapScreen` | `loadData`, display fallbacks, `openNavigation` |
| `session.dfy` | `Session` | the cross-screen lifecycle: save, check, view, clear |

Storage is `map<string, Entry>`. An `Entry` is classified by what
`JSON.parse` makes of it:

- `Json(ParsedRecord)`: the text of an object, kept as the fields the screens read.
  Every field may be missing. A field that is present is assumed to have the
  type the app itself writes (see "## Left out").
- `NonObject(truthy)`: the text of null, a boolean, a number, a string or an
  array. Every field read from such a value is undefined, so all that matters
  is whether the value is truthy.
- `Unparsable(raw)`: a text `JSON.parse` throws on, the empty string included.

JSON text is never empty, so `!!stored` holds for every `Json` and `NonObject`
entry. For `Unparsable` it holds exactly when the text is non-empty. Device replies
are parameters:

- the location permission and position fix (`LocationReply`);
- the photo picker's result (`PickReply`);
- whether `AsyncStorage.setItem` resolves;
- the current time as an ISO string;
- the locale rendering used by `formatTime`.

Some things the code does not do, which the model therefore does not do
either:

- the code does no latitude/longitude range check on save;
- the code caps the photo count when a photo is added and does not check it
  again on save;
- a stored text that is not JSON makes `JSON.parse` throw on the map screen,
  and nothing catches it, so it is not treated as "no session". A stored
  `null` is parsed, and the position is still asked for;
- `handleSave` does not check the 15-character car-number cap, which belongs
  to the text field;
- clearing has no error result;
- a failed check shows an alert and returns no error value.

## Model

| member | source | states |
|---|---|---|
| `Text.Trim` | app/park-details.tsx:105 | `trim` cuts exactly a whitespace run from each end. The result is an infix that neither starts nor ends with whitespace. It is empty iff the input is all whitespace. |
| `Text.TrimIdempotent` | app/park-details.tsx:131 | Trimming an already-trimmed name or id changes nothing. |
| `Text.TrimUpperCommute` | app/park-details.tsx:130 | `trim().toUpperCase()` equals `toUpperCase().trim()`, because upper-casing never adds or removes whitespace. |
| `Text.SkipSpace` | app/park-details.tsx:105 | The scan from the front stops at the first non-whitespace character, or at the end, and passes only whitespace. |
| `Text.SkipSpaceBack` | app/park-details.tsx:105 | The scan from the back stops just after the last non-whitespace character, or at the lower bound, and passes only whitespace. |
| `Text.SkipSpaceUpper` | app/park-details.tsx:130 | Upper-casing does not move where the leading whitespace ends. |
| `Text.SkipSpaceBackUpper` | app/park-details.tsx:130 | Upper-casing does not move where the trailing whitespace starts. |
| `Text.UpperSlice` | app/park-details.tsx:130 | Upper-casing a piece of a text gives the same piece of the upper-cased text. |
| `Text.Upper` | app/park-details.tsx:130 | `toUpperCase` keeps the length and maps each character on its own. |
| `Text.UpperAllSpace` | app/park-details.tsx:130 | An upper-cased text is all whitespace iff the original was. |
| `Text.UpperIdempotent` | app/park-details.tsx:130 | Upper-casing an upper-cased car number changes nothing. |
| `Storage.GetItem` | app/index.tsx:75 | Reading the key gives its value when present and null when absent. |
| `Storage.SetItem` | app/park-details.tsx:137 | A write puts the value under the key and leaves every other key as it was. |
| `Storage.RemoveItem` | app/index.tsx:80 | A removal leaves the key absent whether or not it was present, and leaves every other key as it was. |
| `Storage.Truthy` | app/index.tsx:76 | `!!stored` holds exactly when a value is stored and it is not the empty string. |
| `Storage.HasSession` | app/map.tsx:37 | The `!stored` test both screens apply passes exactly when the parked-location key holds something other than the empty string. Whether a screen then shows a session also depends on what the value parses to (see `Session.FalsyJsonDiverges`). |
| `Storage.Stored` | app/park-details.tsx:127-137 | The round trip through `JSON.stringify` and `JSON.parse` loses nothing: every field of the saved record comes back, and the whole record can be read back from them. |
| `Storage.SetItemTwice` | app/park-details.tsx:137 | A second write under the key hides the first completely. |
| `Storage.SetItemForgets` | app/park-details.tsx:137 | After a write, the store depends only on the value written and the other keys. Nothing of the previous record survives. |
| `ParkDetails.SlotGrid` | app/park-details.tsx:22-23 | The grid has 24 buttons. Every id is a row letter A–D followed by a column digit 1–6, every such id appears, and no id appears twice. |
| `ParkDetails.SlotAtShape` | app/park-details.tsx:220-224 | The `${row}${col}` id of the k-th button, counted row by row, is a row letter and a column digit that give back the button's row and column. |
| `ParkDetails.SlotAtInjective` | app/park-details.tsx:220-228 | Two buttons with the same id are the same button, so the `key={slotId}` keys are unique. |
| `ParkDetails.SlotAtOnto` | app/park-details.tsx:220-230 | Every well-formed slot id belongs to some button. |
| `ParkDetails.SlotGridShape` | app/park-details.tsx:220-240 | The ids, laid out row by row, are exactly the well-formed slot ids, each once. |
| `ParkDetails.AddPhoto` | app/park-details.tsx:55-74 | At two photos the list is unchanged and "Limit reached" is shown. The permission is not asked for. Below two, exactly the first picked asset is appended at the end. A refusal or cancel leaves the list as it was. "Limit reached" is shown exactly at the cap. The permission alert is shown exactly for a refusal below the cap. In every other case there is no alert. |
| `ParkDetails.PhotoEditsStayCapped` | app/park-details.tsx:76-98 | Any sequence of camera/gallery adds and removals, started from at most two photos, ends with at most two. |
| `ParkDetails.KeepOthers` | app/park-details.tsx:97 | `filter((_, i) => i !== index)` keeps every element but one when `index` is a position of the list, and every element otherwise. |
| `ParkDetails.KeepOthersKeepsAll` | app/park-details.tsx:97 | Filtering by position with an index outside the list keeps every element, in order. |
| `ParkDetails.KeepOthersDropsIndex` | app/park-details.tsx:97 | Filtering by position with an index inside the list drops exactly the element at that index and keeps the rest in order. |
| `ParkDetails.RemovePhoto` | app/park-details.tsx:96-98 | `removePhoto(i)` returns the list without element `i`, in order, as the same multiset minus that element. An out-of-range `i` changes nothing. |
| `ParkDetails.Validate` | app/park-details.tsx:101-112 | Checks run in order and report the first failure: no slot picked (null or ""), then a car number that is all whitespace, then a name that is all whitespace. The id is never checked. The form is complete iff all three pass. |
| `ParkDetails.CarNumberForm` | app/park-details.tsx:130 | The saved car number is already trimmed and upper-case. It is empty only for an all-whitespace input. |
| `ParkDetails.Normalise` | app/park-details.tsx:127-135 | The record is in normal form: its car number, name and id are their own trims and the car number is its own upper-case. It keeps the chosen slot, the photos in order, the position and the time. The car number and name are empty exactly when the inputs were blank. |
| `ParkDetails.NormaliseStable` | app/park-details.tsx:127-135 | Typing a saved record back into the form gives the same record again. |
| `ParkDetails.SaveOutcomeOf` | app/park-details.tsx:100-145 | The save ends as one of: the first failed check, a permission refusal, a failure (an exception from the permission request, the fix or the write), or a saved record. A saved record is the normalised form and has a non-empty slot, car number and name. |
| `ParkDetails.HandleSave` | app/park-details.tsx:114-145 | A successful save writes the record under `PARKED_LOCATION` and nothing else. Every other outcome leaves storage as it was. `saving` is untouched when a check fails and is otherwise set true then false. |
| `ParkDetails.SavingSettles` | app/park-details.tsx:114-145 | Starting with `saving` false (the button is disabled while it is true), `saving` is false again on every exit path. Whenever it was set, it was set to true first. |
| `Home.CheckParkedLocation` | app/index.tsx:74-77 | `hasParked` is true iff the key is present and its value is not the empty string. The previous flag plays no part. |
| `Home.ClearParking` | app/index.tsx:79-83 | After "END SESSION" the key is absent, no session is seen, every other key is unchanged, and `hasParked` is false. |
| `Home.ClearIdempotent` | app/index.tsx:79-81 | Clearing an already cleared store ends in the same state. |
| `Home.ControlsOf` | app/index.tsx:224-328 | "Find My Car" responds exactly when `hasParked` holds (`disabled={!hasParked}`), and "END SESSION" is offered exactly then. The status reads "SESSION ACTIVE" exactly then and "NO SESSION" otherwise. |
| `Home.Step` | app/index.tsx:60-83 | A poll tick changes nothing in storage and leaves the flag agreeing with it. "END SESSION" removes the key and drops the flag. A write by another screen puts its value under the key, and a removal by another screen removes the key. Neither changes the flag. No event touches any other key. |
| `Home.Run` | app/index.tsx:69-72 | However the ticks, clears and outside writes interleave, only the parked-location key ever changes. |
| `Home.SettledAfterTick` | app/index.tsx:69-77 | After any events, the most recent being a poll tick or "END SESSION", the flag and "Find My Car" agree with what storage holds. |
| `Home.AgreesWithoutOtherWriters` | app/index.tsx:74-83 | Once the flag agrees with storage, ticks and clears alone keep it agreeing. |
| `Home.MountedTracksStorage` | app/index.tsx:60-77 | From the screen's initial false flag, the mount-time check and later ticks and clears keep the flag equal to storage presence. |
| `MapScreen.LoadData` | app/map.tsx:35-43 | A missing or empty value means no record. A JSON object is loaded with its fields. A truthy JSON value that is not an object loads with every field missing. A falsy one (null, false, 0, "") is parsed but gives no `data`. A text `JSON.parse` rejects throws, and is not treated as "no record". |
| `MapScreen.RequestsLocation` | app/map.tsx:36-44 | The permission request is reached exactly when the load got past both the `!stored` guard and `JSON.parse`. |
| `MapScreen.DataOf` | app/map.tsx:36-42 | `data` is non-null exactly when a truthy value was parsed, and then it holds that value's fields. |
| `MapScreen.NonObjectView` | app/map.tsx:41-44 | A stored JSON value that is not an object still leads to a position request. A falsy one leaves the empty state. A truthy one shows a panel of "—" and "?" stand-ins, with no link. |
| `MapScreen.Render` | app/map.tsx:69-78 | The empty state is shown exactly when `data` is null. |
| `MapScreen.OrDash` | app/map.tsx:127 | A missing or empty car number, slot or name shows "—". A present one shows itself. |
| `MapScreen.FormatTime` | app/map.tsx:57-67 | A missing or empty timestamp shows "—". Any other timestamp shows its locale rendering. |
| `MapScreen.Avatar` | app/map.tsx:152 | The avatar is one character: the name's first character upper-cased, or "?" when there is no name. |
| `MapScreen.IdLine` | app/map.tsx:159-161 | The "ID: …" line exists iff the id is non-empty, and then it carries the id. |
| `MapScreen.PhotosShown` | app/map.tsx:166-178 | The photo row shows the stored list in order, or nothing when the list is missing. |
| `MapScreen.OpenNavigation` | app/map.tsx:51-55 | There is no link without `data` or without coordinates. Otherwise the link starts with the directions prefix. |
| `MapScreen.SplitAtComma` | app/map.tsx:53 | A split at the first comma gives a comma-free head and the rest, which rejoin to the input. |
| `MapScreen.SplitAtCommaJoin` | app/map.tsx:53 | Splitting `a,b` at its first comma gives back `a` and `b` when `a` has no comma. |
| `MapScreen.LinkDestination` | app/map.tsx:53 | What follows the prefix in the link is `latitude,longitude`. |
| `MapScreen.NavigationNamesCoords` | app/map.tsx:53 | Reading the destination back out of the link gives exactly the stored latitude and longitude. |
| `Session.PhaseOf` | app/index.tsx:227 | The session is active iff the key holds a truthy value. |
| `Session.Transitions` | app/park-details.tsx:137 | A successful save leads to Active, a clear leads to Empty, and a save that stops before the write leaves storage unchanged. |
| `Session.PresenceMatchesLoad` | app/map.tsx:36-40 | The home screen's flag and the map screen's load apply the same `!stored` test: the flag is set exactly when the load gets past its guard. |
| `Session.PresenceMatchesView` | app/map.tsx:36-72 | When the key is absent or holds an object, which covers everything the app writes, "SESSION ACTIVE" at home and the details panel on the map go together. |
| `Session.FalsyJsonDiverges` | app/map.tsx:41-72 | A JSON null (or another falsy value) written from elsewhere unlocks "Find My Car" and reads "SESSION ACTIVE" at home, while the map shows "NO ACTIVE SESSION". |
| `Session.SaveThenTick` | app/index.tsx:270-273 | After a save whose form passes the three checks, whose position fix arrives and whose write resolves, the next tick unlocks "Find My Car", offers "END SESSION" and shows "SESSION ACTIVE". |
| `Session.SavedRecord` | app/park-details.tsx:127-137 | A save whose form passes the three checks, whose position fix arrives and whose write resolves succeeds. It writes the normalised record, with a non-empty slot, car number and name, under the key. |
| `Session.RenderStored` | app/map.tsx:123-163 | For a record with every field filled in, the panel shows each field as written. No "—" or "?" appears, and the id line appears only for a non-empty id. |
| `Session.SaveThenView` | app/map.tsx:35-55 | After a save that passes the checks, gets a position and is written, the map screen loads the record and asks for the position. It shows the upper-cased trimmed car number, the chosen slot, the trimmed name and its initial, the id line iff an id was typed, the photos and the save time. The link names the saved position. |
| `Session.SaveOverwrites` | app/park-details.tsx:137 | After two saves, A then B, that each pass the checks, get a position and are written, the map reads exactly B. The resulting store is the same whatever was stored before B, so A cannot be recovered. |
| `Session.ClearThenView` | app/index.tsx:79-81 | After "END SESSION", the map screen finds no record. It shows the empty state, does not ask for the position, and offers no link. |

## Left out

- Animations, styles and layout, which make up most of the three screens. So do `app/splash.tsx` (timed routing to "/") and `app/_layout.tsx` (router configuration).
- The 1-second `setInterval` is modelled as a sequence of `Tick` events (`Home.Run`), not as time. Async interleavings are not modelled. In particular, two photo pickers in flight at once could each pass the length check before either appends.
- `AsyncStorage`, `Location`, `ImagePicker`, `Linking.openURL`, `Alert` and `router` are foreign calls. Their results are parameters, and alerts and navigation are not modelled. A rejected `setItem` is taken to leave the stored value unchanged. A rejected `removeItem` or `getItem` is not modelled.
- JSON serialisation. A stored object is kept as its fields, with no text round-trip. A stored JSON value that is not an object is kept only as whether it is truthy. Its fields read as undefined, so nothing else about it reaches the screens.
- `Storage.Entry`: which texts `JSON.parse` rejects is not computed. An `Unparsable` entry built from valid JSON, such as `Unparsable("null")`, is outside the model's domain: `LoadData` would report a throw for it, where `JSON.parse` returns null. A JSON value that is not an object is written as `NonObject`.
- `Storage.Entry`: a stored object is assumed to hold only fields of the types the app writes. Those are strings for the slot, car number, name, id and timestamp, a list of strings for the photos, and coordinates with two numbers. An object with any other field type has no `Entry`, and what the map screen does with it is not modelled:
  - a non-string `personName`, such as `5`, makes `personName[0].toUpperCase()` throw during rendering (`app/map.tsx` line 152);
  - a non-empty string `photos` passes the length test and then makes `photos.map` throw (lines 166-173);
  - `coords` without numeric fields, such as `{}`, passes the `!data?.coords` guard and gives a link ending in `undefined,undefined` (lines 52-53).
- Floating-point coordinates and number-to-string formatting. A coordinate is kept as its decimal rendering, and `toFixed(6)` on the panel is not modelled.
- Dates. `new Date().toISOString()` is a parameter, and `toLocaleString` is a parameter function.
- The "SLOT …" badge and the map marker, which print fields without fallbacks.
- The map preview and position request on the park-details screen: display only.
- `Text.Upper`: maps only the ASCII letters a–z. JavaScript's `toUpperCase` applies full Unicode case mapping, which can also change a string's length (ß becomes SS).
- `MapScreen.Avatar`: takes the first Unicode scalar value of the name and upper-cases it with the ASCII mapping. The source takes the first UTF-16 code unit, which differs for characters outside the Basic Multilingual Plane.
- The 15-character `maxLength` on the car-number field is a widget property. `handleSave` never checks it.
