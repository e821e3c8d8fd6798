/** The map screen: `loadData` reads the stored record once on mount, the
    details panel shows it with "—" stand-ins, and `openNavigation` builds the
    directions link from its coordinates. */
module MapScreen {
  import opened Wrappers
  import opened Text
  import opened Storage

  /** How `loadData` ends: nothing (or "") stored, so the "No parked location
      found" alert; a parsed value `data` is set to, either truthy (its fields
      as the screen reads them) or falsy (null, false, 0 or ""); or
      `JSON.parse` throwing on a stored text that is not JSON, which nothing
      catches. */
  datatype Load = NoRecord | Loaded(record: ParsedRecord) | ParsedFalsy | ParseThrew

  /** The fields the screen reads off a value that is not an object: every
      one is undefined. */
  const NoFields: ParsedRecord := ParsedRecord(None, None, None, None, None, None, None)

  function LoadData(store: Store): (l: Load)
    ensures l == NoRecord <==> !HasSession(store)
    ensures l == ParseThrew <==>
      ParkedKey in store && store[ParkedKey].Unparsable? && store[ParkedKey].raw != ""
    ensures l == ParsedFalsy <==> ParkedKey in store && store[ParkedKey] == NonObject(false)
    ensures l.Loaded? <==>
      ParkedKey in store && (store[ParkedKey].Json? || store[ParkedKey] == NonObject(true))
    ensures ParkedKey in store && store[ParkedKey].Json? ==> l == Loaded(store[ParkedKey].record)
    ensures ParkedKey in store && store[ParkedKey] == NonObject(true) ==> l == Loaded(NoFields)
  {
    var stored := GetItem(store, ParkedKey);
    if !Truthy(stored) then NoRecord
    else match stored.value
      case Json(record) => Loaded(record)
      case NonObject(truthy) => if truthy then Loaded(NoFields) else ParsedFalsy
      case Unparsable(_) => ParseThrew
  }

  /** `data` once `loadData` is done: the parsed value when it is truthy,
      null otherwise (never set, or set to a falsy value). */
  function DataOf(l: Load): (data: Option<ParsedRecord>)
    ensures data.Some? <==> l.Loaded?
    ensures data.Some? ==> data.value == l.record
  {
    if l.Loaded? then Some(l.record) else None
  }

  /** The device position is asked for once `setData` has run, whatever the
      parsed value was: exactly when `loadData` got past both the `!stored`
      guard and `JSON.parse`. */
  predicate RequestsLocation(l: Load): (b: bool)
    ensures b <==> l != NoRecord && l != ParseThrew
  {
    l.Loaded? || l == ParsedFalsy
  }

  // ---------------------------------------------------------------------------
  // Display projections
  // ---------------------------------------------------------------------------

  const Dash: string := "\U{2014}"

  /** `value || "—"`: a missing or empty field shows a dash. */
  function OrDash(value: Option<string>): (shown: string)
    ensures value.Some? && value.value != "" ==> shown == value.value
    ensures value.None? || value.value == "" ==> shown == Dash
    ensures shown != ""
  {
    if value.Some? && value.value != "" then value.value else Dash
  }

  /** `formatTime`: a dash for a missing or empty timestamp, otherwise the
      locale rendering `localise` stands for. */
  function FormatTime(iso: Option<string>, localise: string -> string): (shown: string)
    ensures iso.None? || iso.value == "" ==> shown == Dash
    ensures iso.Some? && iso.value != "" ==> shown == localise(iso.value)
  {
    if iso.None? || iso.value == "" then Dash else localise(iso.value)
  }

  /** The avatar letter: the first character of the name, upper-cased, or "?"
      when there is no name. */
  function Avatar(name: Option<string>): (a: string)
    ensures |a| == 1
    ensures name.Some? && name.value != "" ==> a[0] == UpperChar(name.value[0])
    ensures name.None? || name.value == "" ==> a == "?"
  {
    if name.Some? && name.value != "" then [UpperChar(name.value[0])] else "?"
  }

  /** The "ID: …" line, present only for a non-empty id. */
  function IdLine(id: Option<string>): (line: Option<string>)
    ensures line.Some? <==> id.Some? && id.value != ""
    ensures line.Some? ==> line.value == "ID: " + id.value
  {
    if id.Some? && id.value != "" then Some("ID: " + id.value) else None
  }

  /** The photo row, shown when the list is there and not empty. */
  function PhotosShown(photos: Option<seq<string>>): (shown: seq<string>)
    ensures photos.Some? ==> shown == photos.value
    ensures photos.None? ==> shown == []
  {
    if photos.Some? && |photos.value| > 0 then photos.value else []
  }

  datatype Panel = Panel(
    vehicle: string,
    slot: string,
    parkedAt: string,
    avatar: string,
    attendant: string,
    idLine: Option<string>,
    photos: seq<string>)

  datatype View = EmptyState | Details(panel: Panel)

  /** The screen for the current `data`: the "NO ACTIVE SESSION" state while
      it is null, the details panel otherwise. */
  function Render(data: Option<ParsedRecord>, localise: string -> string): (v: View)
    ensures v.EmptyState? <==> data.None?
  {
    match data
    case None => EmptyState
    case Some(d) =>
      Details(Panel(OrDash(d.carNumber), OrDash(d.slot), FormatTime(d.timestamp, localise),
                    Avatar(d.personName), OrDash(d.personName), IdLine(d.personId),
                    PhotosShown(d.photos)))
  }

  // ---------------------------------------------------------------------------
  // Navigation
  // ---------------------------------------------------------------------------

  const NavigationPrefix: string := "https://www.google.com/maps/dir/?api=1&destination="

  /** `openNavigation`: no link without coordinates; otherwise the prefix
      followed by `latitude,longitude`. */
  function OpenNavigation(data: Option<ParsedRecord>): (url: Option<string>)
    ensures url.None? <==> data.None? || data.value.coords.None?
    ensures url.Some? ==> NavigationPrefix <= url.value
  {
    if data.None? || data.value.coords.None? then None
    else
      var c := data.value.coords.value;
      Some(NavigationPrefix + c.latitude.rendering + "," + c.longitude.rendering)
  }

  /** Splits a text at its first comma. */
  function SplitAtComma(s: string): (r: Option<(string, string)>)
    ensures r.Some? ==> s == r.value.0 + "," + r.value.1 && ',' !in r.value.0
    decreases |s|
  {
    if s == [] then None
    else if s[0] == ',' then Some(([], s[1..]))
    else match SplitAtComma(s[1..])
      case None => None
      case Some((a, b)) => Some(([s[0]] + a, b))
  }

  /** Reads the destination back out of a directions link. */
  function Destination(url: string): Option<(string, string)> {
    if NavigationPrefix <= url then SplitAtComma(url[|NavigationPrefix|..]) else None
  }

  lemma {:induction false} SplitAtCommaJoin(a: string, b: string)
    requires ',' !in a
    ensures SplitAtComma(a + "," + b) == Some((a, b))
    decreases |a|
  {
    if a == [] {
      assert a + "," + b == [','] + b;
    } else {
      assert (a + "," + b)[1..] == a[1..] + "," + b;
      SplitAtCommaJoin(a[1..], b);
      assert a == [a[0]] + a[1..];
    }
  }

  /** What follows the prefix of a directions link is `latitude,longitude`. */
  lemma LinkDestination(data: Option<ParsedRecord>)
    requires data.Some? && data.value.coords.Some?
    ensures var c := data.value.coords.value;
      Destination(OpenNavigation(data).value)
      == SplitAtComma(c.latitude.rendering + "," + c.longitude.rendering)
  {
    var c := data.value.coords.value;
    var url := OpenNavigation(data).value;
    assert url[|NavigationPrefix|..] == c.latitude.rendering + "," + c.longitude.rendering;
  }

  /** The link names exactly the stored coordinates: reading the destination
      back gives the latitude and longitude texts, since a JavaScript number
      never renders with a comma. */
  lemma NavigationNamesCoords(data: Option<ParsedRecord>)
    requires data.Some? && data.value.coords.Some?
    requires ',' !in data.value.coords.value.latitude.rendering
    ensures var c := data.value.coords.value;
      Destination(OpenNavigation(data).value) == Some((c.latitude.rendering, c.longitude.rendering))
  {
    var c := data.value.coords.value;
    LinkDestination(data);
    SplitAtCommaJoin(c.latitude.rendering, c.longitude.rendering);
  }

  /** A stored JSON value that is not an object still gets past `loadData`:
      the position is asked for, a falsy value leaves the empty state, and a
      truthy one shows the details panel made of stand-ins, with no link. */
  lemma NonObjectView(store: Store, localise: string -> string)
    requires ParkedKey in store && store[ParkedKey].NonObject?
    ensures RequestsLocation(LoadData(store))
    ensures !store[ParkedKey].truthy ==> Render(DataOf(LoadData(store)), localise) == EmptyState
    ensures store[ParkedKey].truthy ==>
      Render(DataOf(LoadData(store)), localise) == Details(Panel(Dash, Dash, Dash, "?", Dash, None, []))
    ensures OpenNavigation(DataOf(LoadData(store))).None?
  {
  }
}
