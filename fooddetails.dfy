/** The Food Details page (frontend/src/pages/Fooddetails.jsx): the request
    form a recipient fills in for a listing, the body it posts, and what the
    reply does to the page. */
module Fooddetails {
  import opened JsValues
  import opened Forms

  const REQUEST_FAILED := "Failed to submit request."
  const REQUEST_ERROR := "An error occurred while submitting the request."
  const LOCATION_ACQUIRED := "Location acquired successfully!"

  /** The top-level inputs of the request form. */
  const REQUEST_FIELDS: set<string> := {"name", "contactNumber", "latitude", "longitude", "description"}

  datatype RequestForm = RequestForm(fields: Obj, address: Obj)

  /** The form the page starts with and returns to after a request is made. */
  function BlankForm(): (f: RequestForm)
    ensures f.fields.Keys == REQUEST_FIELDS && f.address.Keys == ADDRESS_FIELDS
    ensures forall k :: k in f.fields ==> f.fields[k] == Str("")
    ensures forall k :: k in f.address ==> f.address[k] == Str("")
  {
    RequestForm(
      map["name" := Str(""), "contactNumber" := Str(""), "latitude" := Str(""),
          "longitude" := Str(""), "description" := Str("")],
      map["street" := Str(""), "city" := Str(""), "state" := Str(""),
          "postalCode" := Str(""), "country" := Str("")])
  }

  /** `handleInputChange`: the five address names go into `address`, every
      other name to the top level. */
  function HandleInputChange(f: RequestForm, name: string, value: Scalar): (r: RequestForm)
    ensures name in ADDRESS_FIELDS ==> r.fields == f.fields && UpdatedAt(f.address, r.address, name, value)
    ensures name !in ADDRESS_FIELDS ==> r.address == f.address && UpdatedAt(f.fields, r.fields, name, value)
  {
    var routed := Route(f.fields, f.address, ADDRESS_FIELDS, name, value);
    RequestForm(routed.top, routed.nested)
  }

  /** The entries of `o` under `keys`; `JSON.stringify` leaves out the
      undefined ones. */
  function Select(o: Obj, keys: set<string>): (r: Obj)
    ensures r.Keys == keys * o.Keys
    ensures forall k :: k in r ==> r[k] == o[k]
  {
    map k | k in keys && k in o :: o[k]
  }

  /** The JSON body `handleRequestSubmit` posts, with its nested `address`. */
  datatype RequestBody = RequestBody(top: Obj, address: Obj)

  /** The body for `listing` (the loaded `foodDetails`): its `_id` as `donorId`,
      the form's name, contact number and description, the five address parts
      and nothing else of the address, and the coordinates with every falsy
      value (`''`, `0`) sent as `null`. */
  function BuildBody(listing: Obj, f: RequestForm): (b: RequestBody)
    ensures b.top.Keys <= {"donorId", "name", "contactNumber", "latitude", "longitude", "description"}
    ensures Get(b.top, "donorId") == Get(listing, "_id")
    ensures Get(b.top, "name") == Get(f.fields, "name")
    ensures Get(b.top, "contactNumber") == Get(f.fields, "contactNumber")
    ensures Get(b.top, "description") == Get(f.fields, "description")
    ensures Get(b.top, "latitude") == Some(OrElse(f.fields, "latitude", Null))
    ensures Get(b.top, "longitude") == Some(OrElse(f.fields, "longitude", Null))
    ensures b.address.Keys <= ADDRESS_FIELDS
    ensures forall k :: k in ADDRESS_FIELDS ==> Get(b.address, k) == Get(f.address, k)
  {
    var copied := Select(f.fields, {"name", "contactNumber", "description"});
    var withDonor := if "_id" in listing then copied["donorId" := listing["_id"]] else copied;
    RequestBody(
      withDonor["latitude" := OrElse(f.fields, "latitude", Null)]["longitude" := OrElse(f.fields, "longitude", Null)],
      Select(f.address, ADDRESS_FIELDS))
  }

  /** The page state the request form touches. */
  datatype Page = Page(
    listing: Obj,
    showRequestForm: bool,
    form: RequestForm,
    successMessage: Option<string>,
    errorMessage: string,
    locationStatus: string)

  /** The page after `handleRequestSubmit`, and the body it posted. */
  datatype Submission = Submission(page: Page, sent: RequestBody)

  /** `handleRequestSubmit` with the server's reply: a success shows the
      reply's message and blanks the form; a failure shows the reply's message
      or a default; neither clears the other's message. */
  function HandleRequestSubmit(p: Page, reply: SubmitReply): (s: Submission)
    ensures s.sent == BuildBody(p.listing, p.form)
    ensures reply.Replied? && reply.ok ==> s.page == p.(successMessage := reply.message, form := BlankForm())
    ensures reply.Replied? && !reply.ok ==> s.page == p.(errorMessage := TextOr(reply.message, REQUEST_FAILED))
    ensures reply.Threw? ==> s.page == p.(errorMessage := REQUEST_ERROR)
  {
    var page :=
      match reply
      case Replied(ok, message) =>
        if ok then p.(successMessage := message, form := BlankForm())
        else p.(errorMessage := TextOr(message, REQUEST_FAILED))
      case Threw => p.(errorMessage := REQUEST_ERROR);
    Submission(page, BuildBody(p.listing, p.form))
  }

  /** A request sent from the blank form has `null` coordinates and an empty
      address. */
  lemma BlankFormSendsNullCoordinates(listing: Obj)
    ensures BuildBody(listing, BlankForm()).top["latitude"] == Null
    ensures BuildBody(listing, BlankForm()).top["longitude"] == Null
    ensures forall k :: k in BuildBody(listing, BlankForm()).address ==>
      BuildBody(listing, BlankForm()).address[k] == Str("")
  {
    var b := BuildBody(listing, BlankForm());
    assert Get(b.top, "latitude") == Some(Null);
    assert Get(b.top, "longitude") == Some(Null);
  }

  /** The request-form toggle: `setShowRequestForm(prev => !prev)`. */
  function ToggleRequestForm(p: Page): (r: Page)
    ensures r.showRequestForm == !p.showRequestForm
    ensures r.(showRequestForm := p.showRequestForm) == p
  {
    p.(showRequestForm := !p.showRequestForm)
  }

  /** A geolocation fix: the coordinates written at the top level. */
  function ApplyPosition(p: Page, latitude: real, longitude: real): (r: Page)
    ensures r.form.address == p.form.address
    ensures r.form.fields == p.form.fields["latitude" := Num(latitude)]["longitude" := Num(longitude)]
    ensures r == p.(form := r.form)
  {
    p.(form := p.form.(fields := p.form.fields["latitude" := Num(latitude)]["longitude" := Num(longitude)]))
  }

  /** A fix away from zero is what the next request carries; a zero coordinate
      is falsy and goes out as `null`. */
  lemma PositionIsSent(p: Page, latitude: real, longitude: real)
    ensures BuildBody(p.listing, ApplyPosition(p, latitude, longitude).form).top["latitude"] ==
      if latitude != 0.0 then Num(latitude) else Null
    ensures BuildBody(p.listing, ApplyPosition(p, latitude, longitude).form).top["longitude"] ==
      if longitude != 0.0 then Num(longitude) else Null
  {
    var b := BuildBody(p.listing, ApplyPosition(p, latitude, longitude).form);
    assert Get(b.top, "latitude").Some? && Get(b.top, "longitude").Some?;
  }

  /** The reverse-geocoding reply: a found address replaces the form's whole
      address; the status says how it went. */
  function ApplyGeocode(p: Page, reply: GeoReply): (r: Page)
    ensures reply.Found? ==>
      r == p.(form := p.form.(address := GeocodedAddress(reply.address)), locationStatus := LOCATION_ACQUIRED)
    ensures reply.NoAddress? ==> r == p.(locationStatus := NO_ADDRESS)
    ensures reply.GeoThrew? ==> r == p.(locationStatus := GEOCODE_FAILED)
  {
    var l := Geocoded(p.form.address, reply, LOCATION_ACQUIRED);
    p.(form := p.form.(address := l.address), locationStatus := l.status)
  }
}
