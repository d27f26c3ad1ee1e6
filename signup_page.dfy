/** The Sign Up page (frontend/src/pages/Signup.jsx): its form, where each
    input lands, the merged geolocation fix, and what the reply does. */
module SignupPage {
  import opened JsValues
  import opened Forms
  import opened Db
  import JsText
  import UserModel
  import AuthController

  /** The input ids that belong to the nested `location` object. */
  const LOCATION_FIELDS: set<string> := {"city", "state"}
  const SIGNIN_PATH := "/signin"
  const LOCATION_ACQUIRED := "Location acquired successfully!"
  const LOCATION_FAILED := "Failed to acquire location."

  datatype Form = Form(fields: Obj, location: Obj)

  /** The form starts with nothing but an empty `location` object. */
  function InitialForm(): (f: Form)
    ensures f.fields == map[] && f.location == map[]
  {
    Form(map[], map[])
  }

  /** `handleChange`: ids `city` and `state` go into `location`, every other
      id to the top level. */
  function HandleChange(f: Form, id: string, value: Scalar): (r: Form)
    ensures id in LOCATION_FIELDS ==> r.fields == f.fields && UpdatedAt(f.location, r.location, id, value)
    ensures id !in LOCATION_FIELDS ==> r.location == f.location && UpdatedAt(f.fields, r.fields, id, value)
  {
    var routed := Route(f.fields, f.location, LOCATION_FIELDS, id, value);
    Form(routed.top, routed.nested)
  }

  /** The page state. */
  datatype Page = Page(
    form: Form,
    error: bool,
    loading: bool,
    locationUsed: bool,
    locationStatus: string,
    locationMethod: string)

  /** A geolocation fix: the coordinates are merged into `location`, keeping
      any city and state typed before. */
  function ApplyPosition(p: Page, latitude: real, longitude: real): (r: Page)
    ensures r.form.fields == p.form.fields
    ensures r.form.location.Keys == p.form.location.Keys + {"latitude", "longitude"}
    ensures r.form.location["latitude"] == Num(latitude) && r.form.location["longitude"] == Num(longitude)
    ensures forall k :: k in p.form.location && k != "latitude" && k != "longitude" ==>
      r.form.location[k] == p.form.location[k]
    ensures r.locationUsed && r.locationStatus == LOCATION_ACQUIRED && r.locationMethod == "auto"
    ensures r.error == p.error && r.loading == p.loading
  {
    p.(form := p.form.(location := p.form.location["latitude" := Num(latitude)]["longitude" := Num(longitude)]),
       locationUsed := true, locationStatus := LOCATION_ACQUIRED, locationMethod := "auto")
  }

  /** A fix taken after typing the city keeps the typed city. */
  lemma TypedCitySurvivesFix(p: Page, city: Scalar, latitude: real, longitude: real)
    ensures ApplyPosition(p.(form := HandleChange(p.form, "city", city)), latitude, longitude).form.location["city"] == city
  {
  }

  /** A geolocation error: the error flag and the status. */
  function PositionFailed(p: Page): (r: Page)
    ensures r.error && r.locationStatus == LOCATION_FAILED
    ensures r.(error := p.error, locationStatus := p.locationStatus) == p
  {
    p.(error := true, locationStatus := LOCATION_FAILED)
  }

  /** The reply to the sign-up request: its `success` property, if any, or a
      request that threw. */
  datatype SignupReply = Answered(success: Option<bool>) | Aborted

  /** The page after `handleSubmit`, and where it navigates, if anywhere. */
  datatype Outcome = Outcome(page: Page, navigateTo: Option<string>)

  /** `handleSubmit`: only a reply with `success === false`, or a request that
      threw, keeps the user on the page with the error flag set; any other
      reply, even one without `success`, goes to the sign-in page. */
  function HandleSubmit(p: Page, reply: SignupReply): (o: Outcome)
    ensures !o.page.loading && o.page.form == p.form
    ensures o.navigateTo.None? <==> reply.Aborted? || reply.success == Some(false)
    ensures o.navigateTo.Some? ==> o.navigateTo.value == SIGNIN_PATH && !o.page.error
    ensures o.navigateTo.None? ==> o.page.error
  {
    var sending := p.(loading := true, error := false);
    match reply
    case Aborted => Outcome(sending.(loading := false, error := true), None)
    case Answered(success) =>
      if success == Some(false) then Outcome(sending.(loading := false, error := true), None)
      else Outcome(sending.(loading := false), Some(SIGNIN_PATH))
  }

  /** The `success` property of the sign-up endpoint's JSON: `true` with the
      201 reply, `false` with the 400 reply and with every error the error
      middleware of backend/index.js answers. */
  function ReplyOf(res: Response<string>): SignupReply {
    Answered(Some(res.Success?))
  }

  /** Submitting the page against the sign-up endpoint: the page goes to the
      sign-in page exactly when the account was created. */
  method SubmitSignup(db: Store, p: Page, b: AuthController.SignupInput, salt: string, now: int)
    returns (o: Outcome)
    requires db.Valid()
    modifies db
    ensures db.Valid()
    ensures o.navigateTo == Some(SIGNIN_PATH) <==>
      AuthController.HasSignupFields(b) && JsText.Trim(b.username) != "" && !UserModel.Registered(old(db.users), b.email)
    ensures o.navigateTo.None? ==> unchanged(db) && o.page.error
  {
    var res := AuthController.Signup(db, b, salt, now);
    o := HandleSubmit(p, ReplyOf(res));
  }
}
