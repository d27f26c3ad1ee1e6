/** The Manage Food page (frontend/src/pages/Managefood.jsx): loading the
    signed-in donor's listings, editing one, and saving it back. The food-item
    updaters and the dropdown are those of `Forms`. */
module Managefood {
  import opened JsValues
  import opened JsText
  import opened Forms
  import UserSlice

  const NO_TOKEN := "No token found"
  const UNEXPECTED := "An unexpected error occurred."
  const SAVE_FAILED := "Failed to update donation."
  const DONATIONS_PATH := "/api/donor/userdonations/"
  const LOCATION_FETCHED := "Location fetched successfully!"

  // ----- loading ----------------------------------------------------------

  /** `${v}` in a template literal; `numberText` is JavaScript's number-to-text
      conversion. */
  function TemplateText(v: Option<Scalar>, numberText: real -> string): string {
    match v
    case None => "undefined"
    case Some(Str(s)) => s
    case Some(Num(x)) => numberText(x)
    case Some(Null) => "null"
  }

  /** The mount effect: with no stored token an error and no fetch; otherwise
      the `id` claim is read from the token's second segment, rewritten to
      base64, and the donor's listings are fetched. `decode` stands for `atob`
      followed by `JSON.parse`, `None` when either throws; a token without a
      second segment throws as well. */
  function LoadDonations(stored: Option<string>, decode: string -> Option<Obj>, numberText: real -> string): (l: Load)
    ensures !TruthyText(stored) ==> l == Fail(NO_TOKEN)
    ensures TruthyText(stored) && Piece(stored.value, '.', 1).None? ==> l == Fail(UNEXPECTED)
    ensures TruthyText(stored) && Piece(stored.value, '.', 1).Some? ==>
      l == (var claims := decode(UserSlice.ToBase64(Piece(stored.value, '.', 1).value));
            if claims.None? then Fail(UNEXPECTED)
            else Fetch(DONATIONS_PATH + TemplateText(Get(claims.value, "id"), numberText)))
  {
    if !TruthyText(stored) then Fail(NO_TOKEN)
    else
      var segment := Piece(stored.value, '.', 1);
      if segment.None? then Fail(UNEXPECTED)
      else
        var claims := decode(UserSlice.ToBase64(segment.value));
        if claims.None? then Fail(UNEXPECTED)
        else Fetch(DONATIONS_PATH + TemplateText(Get(claims.value, "id"), numberText))
  }

  /** With a token the server issued (three dot-free segments whose payload
      carries the user's id as text), the page fetches that user's listings. */
  lemma LoadsOwnDonations(header: string, payload: string, signature: string, id: string,
                          decode: string -> Option<Obj>, numberText: real -> string)
    requires '.' !in header && '.' !in payload && '.' !in signature
    requires decode(UserSlice.ToBase64(payload)).Some?
    requires Get(decode(UserSlice.ToBase64(payload)).value, "id") == Some(Str(id))
    ensures LoadDonations(Some(header + "." + payload + "." + signature), decode, numberText)
      == Fetch(DONATIONS_PATH + id)
  {
    SecondPieceOfThree(header, payload, signature, '.');
    assert header + "." + payload + "." + signature == header + ['.'] + payload + ['.'] + signature;
  }

  /** The page state. `editMode` is the id of the listing being edited. */
  datatype Page = Page(
    donations: seq<DonorForm>,
    loading: bool,
    error: string,
    editMode: Option<Scalar>,
    current: DonorForm,
    locationStatus: string,
    dropdown: Option<string>)

  /** The end of the mount effect, given the listings the server sent
      (`None` when the request failed or was not made). */
  function FinishLoad(p: Page, plan: Load, reply: Option<seq<DonorForm>>): (r: Page)
    ensures !r.loading
    ensures plan.Fail? ==> r == p.(error := plan.error, loading := false)
    ensures plan.Fetch? && reply.Some? ==> r == p.(donations := reply.value, loading := false)
    ensures plan.Fetch? && reply.None? ==> r == p.(error := UNEXPECTED, loading := false)
  {
    match plan
    case Fail(e) => p.(error := e, loading := false)
    case Fetch(_) =>
      if reply.Some? then p.(donations := reply.value, loading := false)
      else p.(error := UNEXPECTED, loading := false)
  }

  // ----- editing ----------------------------------------------------------

  function IdOf(d: DonorForm): Option<Scalar> {
    Get(d.fields, "_id")
  }

  /** `donations.map(d => d._id === id ? updated : d)`. */
  function ReplacedById(ds: seq<DonorForm>, id: Option<Scalar>, updated: DonorForm): (r: seq<DonorForm>)
    ensures |r| == |ds|
    ensures forall i :: 0 <= i < |ds| ==> r[i] == if IdOf(ds[i]) == id then updated else ds[i]
    decreases |ds|
  {
    if ds == [] then []
    else [if IdOf(ds[0]) == id then updated else ds[0]] + ReplacedById(ds[1..], id, updated)
  }

  /** When listing `k` is the only one with that id, exactly position `k` is
      replaced. */
  lemma ReplacedByUniqueId(ds: seq<DonorForm>, k: nat, updated: DonorForm)
    requires k < |ds|
    requires forall j :: 0 <= j < |ds| && j != k ==> IdOf(ds[j]) != IdOf(ds[k])
    ensures ReplacedById(ds, IdOf(ds[k]), updated) == ds[k := updated]
  {
    var r := ReplacedById(ds, IdOf(ds[k]), updated);
    forall j | 0 <= j < |ds|
      ensures r[j] == ds[k := updated][j]
    {
    }
  }

  /** An id no listing has replaces nothing. */
  lemma ReplacedByAbsentId(ds: seq<DonorForm>, id: Option<Scalar>, updated: DonorForm)
    requires forall j :: 0 <= j < |ds| ==> IdOf(ds[j]) != id
    ensures ReplacedById(ds, id, updated) == ds
  {
    var r := ReplacedById(ds, id, updated);
    assert forall j :: 0 <= j < |ds| ==> r[j] == ds[j];
  }

  /** `handleSave` with the server's reply: the updated listing returned by a
      successful `PUT` replaces the one being edited and edit mode ends; a
      failure keeps the list and shows an error. */
  function HandleSave(p: Page, reply: Option<DonorForm>): (r: Page)
    ensures reply.Some? ==>
      r == p.(donations := ReplacedById(p.donations, IdOf(p.current), reply.value), editMode := None)
    ensures reply.None? ==> r == p.(error := SAVE_FAILED)
  {
    if reply.Some? then p.(donations := ReplacedById(p.donations, IdOf(p.current), reply.value), editMode := None)
    else p.(error := SAVE_FAILED)
  }

  /** Saving the listing being edited, when it sits at position `k` and no
      other listing shares its id: a success replaces position `k` and nothing
      else, a failure keeps the whole list. */
  lemma SaveReplacesEditedListing(p: Page, k: nat, reply: Option<DonorForm>)
    requires k < |p.donations| && IdOf(p.donations[k]) == IdOf(p.current)
    requires forall j :: 0 <= j < |p.donations| && j != k ==> IdOf(p.donations[j]) != IdOf(p.current)
    ensures reply.Some? ==> HandleSave(p, reply).donations == p.donations[k := reply.value]
    ensures reply.None? ==> HandleSave(p, reply).donations == p.donations && HandleSave(p, reply).error == SAVE_FAILED
  {
    if reply.Some? {
      ReplacedByUniqueId(p.donations, k, reply.value);
    }
  }

  /** The page after `handleEditClick(donor)`, and the coordinates it sends to
      the reverse geocoder, if any. */
  datatype Edit = Edit(page: Page, geocodeAt: Option<(Scalar, Scalar)>)

  /** `handleEditClick(donor)`: edit mode on that listing, the listing copied
      into the form, and a reverse-geocoding request when the listing has
      truthy top-level `latitude` and `longitude`. */
  function HandleEditClick(p: Page, donor: DonorForm): (e: Edit)
    ensures e.page == p.(editMode := IdOf(donor), current := donor)
    ensures e.geocodeAt.Some? <==> Truthy(donor.fields, "latitude") && Truthy(donor.fields, "longitude")
    ensures e.geocodeAt.Some? ==> e.geocodeAt.value == (donor.fields["latitude"], donor.fields["longitude"])
  {
    var page := p.(editMode := IdOf(donor), current := donor);
    if Truthy(donor.fields, "latitude") && Truthy(donor.fields, "longitude") then
      Edit(page, Some((donor.fields["latitude"], donor.fields["longitude"])))
    else Edit(page, None)
  }

  /** `fetchLocation` once the geocoder answered: a found address replaces the
      form's whole address; the status says how it went; nothing else moves. */
  function ApplyGeocode(p: Page, reply: GeoReply): (r: Page)
    ensures reply.Found? ==>
      r == p.(current := p.current.(address := GeocodedAddress(reply.address)), locationStatus := LOCATION_FETCHED)
    ensures reply.NoAddress? ==> r == p.(locationStatus := NO_ADDRESS)
    ensures reply.GeoThrew? ==> r == p.(locationStatus := GEOCODE_FAILED)
  {
    var l := Geocoded(p.current.address, reply, LOCATION_FETCHED);
    p.(current := p.current.(address := l.address), locationStatus := l.status)
  }

  // ----- the edit inputs ---------------------------------------------------

  /** What the address input `name` shows: `currentDonor.address?.[name] || ''`. */
  function DisplayedAddress(d: DonorForm, name: string): (r: Scalar)
    ensures r == Str("") || IsTruthy(r)
    ensures Truthy(d.address, name) ==> r == d.address[name]
    ensures !Truthy(d.address, name) ==> r == Str("")
  {
    OrElse(d.address, name, Str(""))
  }

  /** `handleChange` as written: every input name, the five address names
      included, is written at the top level of the edited listing. */
  function HandleChangeAsWritten(p: Page, name: string, value: Scalar): (r: Page)
    ensures UpdatedAt(p.current.fields, r.current.fields, name, value)
    ensures r.current.address == p.current.address && r.current.foodItems == p.current.foodItems
    ensures r == p.(current := r.current)
  {
    p.(current := p.current.(fields := p.current.fields[name := value]))
  }

  /** Typing into an address input as written never changes what it shows, nor
      the address the listing is saved with. */
  lemma AddressEditIsLost(p: Page, name: string, value: Scalar)
    requires name in ADDRESS_FIELDS
    ensures DisplayedAddress(HandleChangeAsWritten(p, name, value).current, name) == DisplayedAddress(p.current, name)
    ensures HandleChangeAsWritten(p, name, value).current.address == p.current.address
  {
  }

  /** For instance: typing `Main St` into the empty street input leaves it empty. */
  lemma StreetTypingLost(p: Page)
    requires p.current.address == map[]
    ensures DisplayedAddress(HandleChangeAsWritten(p, "street", Str("Main St")).current, "street") == Str("")
    ensures DisplayedAddress(HandleChangeAsWritten(p, "street", Str("Main St")).current, "street") != Str("Main St")
  {
  }

  /** `handleChange` as evidently intended: address names routed into
      `address`, like the Add Food page does. */
  function HandleChange(p: Page, name: string, value: Scalar): (r: Page)
    ensures r == p.(current := r.current)
    ensures r.current.foodItems == p.current.foodItems
    ensures name in ADDRESS_FIELDS ==>
      r.current.fields == p.current.fields && UpdatedAt(p.current.address, r.current.address, name, value)
    ensures name !in ADDRESS_FIELDS ==>
      r.current.address == p.current.address && UpdatedAt(p.current.fields, r.current.fields, name, value)
  {
    p.(current := Forms.HandleInputChange(p.current, name, value))
  }

  /** With the routed update, typed address text is shown, and the other
      inputs behave exactly as written. */
  lemma HandleChangeShowsEdits(p: Page, name: string, value: Scalar)
    ensures name in ADDRESS_FIELDS && IsTruthy(value) ==>
      DisplayedAddress(HandleChange(p, name, value).current, name) == value
    ensures name !in ADDRESS_FIELDS ==> HandleChange(p, name, value) == HandleChangeAsWritten(p, name, value)
  {
  }
}
