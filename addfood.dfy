/** The Add Food page (frontend/src/pages/Addfood.jsx): its initial form, the
    validation run before submitting, and what a submission does to the page.
    The input and food-item updaters it uses are those of `Forms`. */
module Addfood {
  import opened JsValues
  import opened Forms

  const REQUIRED_FIELDS_MESSAGE := "Please fill out all required fields."
  const FOOD_ITEM_MESSAGE := "Please fill out all food item fields."
  const SUBMITTED := "Form submitted successfully!"
  const SUBMIT_FAILED := "Form submission failed. Please try again."
  const SUBMIT_ERROR := "An error occurred while submitting the form. Please try again."
  const LOCATION_ACQUIRED := "Location acquired successfully!"

  /** `initialFormData`: every text empty, one default food item. */
  function InitialForm(): (f: DonorForm)
    ensures f.fields.Keys == {"name", "email", "contactNumber", "latitude", "longitude", "availableUntil"}
    ensures forall k :: k in f.fields ==> f.fields[k] == Str("")
    ensures f.address.Keys == ADDRESS_FIELDS
    ensures forall k :: k in f.address ==> f.address[k] == Str("")
    ensures f.foodItems == [DefaultFoodItem()]
  {
    DonorForm(
      map["name" := Str(""), "email" := Str(""), "contactNumber" := Str(""),
          "latitude" := Str(""), "longitude" := Str(""), "availableUntil" := Str("")],
      map["street" := Str(""), "city" := Str(""), "state" := Str(""),
          "postalCode" := Str(""), "country" := Str("")],
      [DefaultFoodItem()])
  }

  /** `name`, `email`, `contactNumber` and `availableUntil` are all truthy. */
  predicate HasRequiredFields(f: DonorForm) {
    Truthy(f.fields, "name") && Truthy(f.fields, "email")
    && Truthy(f.fields, "contactNumber") && Truthy(f.fields, "availableUntil")
  }

  /** An item's `name`, `quantity` and `expiryDate` are all truthy. */
  predicate ItemComplete(item: Obj) {
    Truthy(item, "name") && Truthy(item, "quantity") && Truthy(item, "expiryDate")
  }

  /** The message `validateForm` gives, as a function of the form. */
  function FormProblem(f: DonorForm): Option<string> {
    if !HasRequiredFields(f) then Some(REQUIRED_FIELDS_MESSAGE)
    else if exists i :: 0 <= i < |f.foodItems| && !ItemComplete(f.foodItems[i]) then Some(FOOD_ITEM_MESSAGE)
    else None
  }

  /** `validateForm()`: the required top-level fields first, then a scan of the
      food items that stops at the first incomplete one. */
  method ValidateForm(f: DonorForm) returns (err: Option<string>)
    ensures err == FormProblem(f)
    ensures err == Some(REQUIRED_FIELDS_MESSAGE) <==> !HasRequiredFields(f)
    ensures err == Some(FOOD_ITEM_MESSAGE) <==>
      HasRequiredFields(f) && exists i :: 0 <= i < |f.foodItems| && !ItemComplete(f.foodItems[i])
    ensures err.None? <==>
      HasRequiredFields(f) && forall i :: 0 <= i < |f.foodItems| ==> ItemComplete(f.foodItems[i])
  {
    if !HasRequiredFields(f) {
      return Some(REQUIRED_FIELDS_MESSAGE);
    }
    var k := 0;
    while k < |f.foodItems|
      invariant 0 <= k <= |f.foodItems|
      invariant forall j :: 0 <= j < k ==> ItemComplete(f.foodItems[j])
    {
      if !ItemComplete(f.foodItems[k]) {
        return Some(FOOD_ITEM_MESSAGE);
      }
      k := k + 1;
    }
    return None;
  }

  /** The form the page starts with, and returns to after a successful
      submission, cannot be submitted as it is. */
  lemma InitialFormIsIncomplete()
    ensures FormProblem(InitialForm()) == Some(REQUIRED_FIELDS_MESSAGE)
  {
    assert !Truthy(InitialForm().fields, "name");
  }

  /** A new item must be filled in before the form can be sent again. */
  lemma AddedItemNeedsFilling(f: DonorForm)
    requires HasRequiredFields(f)
    ensures FormProblem(AddFoodItem(f)) == Some(FOOD_ITEM_MESSAGE)
  {
    var items := AddFoodItem(f).foodItems;
    assert !ItemComplete(items[|f.foodItems|]);
  }

  /** Removing an item never makes a valid form invalid. */
  lemma RemovingKeepsValid(f: DonorForm, i: nat)
    requires FormProblem(f).None?
    ensures FormProblem(RemoveFoodItem(f, i)).None?
  {
    var items := RemoveFoodItem(f, i).foodItems;
    if i < |f.foodItems| {
      forall j | 0 <= j < |items|
        ensures ItemComplete(items[j])
      {
        if j < i { assert items[j] == f.foodItems[j]; } else { assert items[j] == f.foodItems[j + 1]; }
      }
    }
  }

  /** The page state a submission touches. */
  datatype Page = Page(
    form: DonorForm,
    dropdown: Option<string>,
    loading: bool,
    successMessage: string,
    errorMessage: string,
    locationStatus: string)

  /** The page after `handleSubmit`, and the form it posted, if any. */
  datatype Submission = Submission(page: Page, sent: Option<DonorForm>)

  /** `handleSubmit` with the server's reply: a validation error is shown and
      nothing is sent; otherwise the form is posted, a success resets it, and
      a failure shows the reply's message or a default. */
  function HandleSubmit(p: Page, reply: SubmitReply): (s: Submission)
    ensures FormProblem(p.form).Some? ==>
      s.sent.None? && s.page == p.(errorMessage := FormProblem(p.form).value)
    ensures FormProblem(p.form).None? ==>
      s.sent == Some(p.form) && !s.page.loading && s.page.dropdown == p.dropdown
    ensures FormProblem(p.form).None? && reply.Replied? && reply.ok ==>
      s.page.form == InitialForm() && s.page.successMessage == SUBMITTED && s.page.errorMessage == ""
    ensures FormProblem(p.form).None? && reply.Replied? && reply.ok ==>
      s.page == p.(form := InitialForm(), loading := false, successMessage := SUBMITTED, errorMessage := "")
    ensures FormProblem(p.form).None? && reply.Replied? && !reply.ok ==>
      && s.page.form == p.form && s.page.successMessage == ""
      && s.page.errorMessage == TextOr(reply.message, SUBMIT_FAILED)
      && s.page == p.(loading := false, successMessage := "", errorMessage := s.page.errorMessage)
    ensures FormProblem(p.form).None? && reply.Threw? ==>
      s.page == p.(loading := false, successMessage := "", errorMessage := SUBMIT_ERROR)
  {
    var problem := FormProblem(p.form);
    if problem.Some? then Submission(p.(errorMessage := problem.value), None)
    else
      var sending := p.(loading := true, successMessage := "", errorMessage := "");
      var done :=
        match reply
        case Replied(ok, message) =>
          if ok then sending.(successMessage := SUBMITTED, form := InitialForm())
          else sending.(errorMessage := TextOr(message, SUBMIT_FAILED))
        case Threw => sending.(errorMessage := SUBMIT_ERROR);
      Submission(done.(loading := false), Some(p.form))
  }

  /** A geolocation fix: the coordinates written at the top level of the form. */
  function ApplyPosition(p: Page, latitude: real, longitude: real): (r: Page)
    ensures r.form.address == p.form.address && r.form.foodItems == p.form.foodItems
    ensures r.form.fields.Keys == p.form.fields.Keys + {"latitude", "longitude"}
    ensures r.form.fields["latitude"] == Num(latitude) && r.form.fields["longitude"] == Num(longitude)
    ensures forall k :: k in p.form.fields && k != "latitude" && k != "longitude" ==>
      r.form.fields[k] == p.form.fields[k]
    ensures r == p.(form := r.form)
  {
    p.(form := p.form.(fields := p.form.fields["latitude" := Num(latitude)]["longitude" := Num(longitude)]))
  }

  /** The reverse-geocoding reply: a found address replaces the form's whole
      address; the status says how it went. */
  function ApplyGeocode(p: Page, reply: GeoReply): (r: Page)
    ensures reply.Found? ==>
      r == p.(form := p.form.(address := GeocodedAddress(reply.address)), locationStatus := LOCATION_ACQUIRED)
    ensures reply.NoAddress? ==> r == p.(locationStatus := NO_ADDRESS)
    ensures reply.GeoThrew? ==> r == p.(locationStatus := GEOCODE_FAILED)
  {
    var l := Geocoded(p.form.address, reply, LOCATION_ACQUIRED);
    p.(form := p.form.(address := l.address), locationStatus := l.status)
  }

  /** Locating the donor never settles validation on its own: the coordinates
      and the address are not among the fields `validateForm` requires, so the
      outcome of the check is the same before and after. */
  lemma LocatingKeepsValidation(p: Page, latitude: real, longitude: real, reply: GeoReply)
    ensures FormProblem(ApplyGeocode(ApplyPosition(p, latitude, longitude), reply).form) == FormProblem(p.form)
  {
    var q := ApplyGeocode(ApplyPosition(p, latitude, longitude), reply);
    assert HasRequiredFields(q.form) == HasRequiredFields(p.form);
  }
}
