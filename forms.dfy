/** The state updates the form pages share: routing an input into a nested
    object, the food-item list operations of the donation forms
    (frontend/src/pages/Addfood.jsx and frontend/src/pages/Managefood.jsx),
    the reverse-geocoded address, and the sidebar dropdown. */
module Forms {
  import opened JsValues

  /** The input names that belong to the nested `address` object. */
  const ADDRESS_FIELDS: set<string> := {"street", "city", "state", "postalCode", "country"}

  // ----- routing an input ------------------------------------------------

  /** A form's top-level object and the nested object some inputs write into. */
  datatype Routed = Routed(top: Obj, nested: Obj)

  /** `{ ...prev, nested: { ...prev.nested, [name]: value } }` for a name in
      `nestedKeys`, `{ ...prev, [name]: value }` for any other. */
  function Route(top: Obj, nested: Obj, nestedKeys: set<string>, name: string, value: Scalar): (r: Routed)
    ensures name in nestedKeys ==> r.top == top && UpdatedAt(nested, r.nested, name, value)
    ensures name !in nestedKeys ==> r.nested == nested && UpdatedAt(top, r.top, name, value)
  {
    if name in nestedKeys then Routed(top, nested[name := value]) else Routed(top[name := value], nested)
  }

  /** Typing into the same input twice keeps only the second value. */
  lemma RouteLastWriteWins(top: Obj, nested: Obj, keys: set<string>, name: string, first: Scalar, second: Scalar)
    ensures var once := Route(top, nested, keys, name, first);
            Route(once.top, once.nested, keys, name, second) == Route(top, nested, keys, name, second)
  {
    var once := Route(top, nested, keys, name, first);
    var twice := Route(once.top, once.nested, keys, name, second);
    var direct := Route(top, nested, keys, name, second);
    assert twice.top.Keys == direct.top.Keys && twice.nested.Keys == direct.nested.Keys;
  }

  /** Inputs with different names do not interfere: their order does not matter. */
  lemma RouteCommutes(top: Obj, nested: Obj, keys: set<string>, n1: string, v1: Scalar, n2: string, v2: Scalar)
    requires n1 != n2
    ensures var a := Route(top, nested, keys, n1, v1);
            var b := Route(top, nested, keys, n2, v2);
            Route(a.top, a.nested, keys, n2, v2) == Route(b.top, b.nested, keys, n1, v1)
  {
    var a := Route(top, nested, keys, n1, v1);
    var b := Route(top, nested, keys, n2, v2);
    var ab := Route(a.top, a.nested, keys, n2, v2);
    var ba := Route(b.top, b.nested, keys, n1, v1);
    assert ab.top.Keys == ba.top.Keys && ab.nested.Keys == ba.nested.Keys;
  }

  // ----- the donation form -----------------------------------------------

  /** The donation form state of the Add Food and Manage Food pages: the
      top-level fields, the nested `address` and the `foodItems` list. */
  datatype DonorForm = DonorForm(fields: Obj, address: Obj, foodItems: seq<Obj>)

  /** `handleInputChange`: the five address names go into `address`, every
      other name to the top level. */
  function HandleInputChange(f: DonorForm, name: string, value: Scalar): (r: DonorForm)
    ensures r.foodItems == f.foodItems
    ensures name in ADDRESS_FIELDS ==> r.fields == f.fields && UpdatedAt(f.address, r.address, name, value)
    ensures name !in ADDRESS_FIELDS ==> r.address == f.address && UpdatedAt(f.fields, r.fields, name, value)
  {
    var routed := Route(f.fields, f.address, ADDRESS_FIELDS, name, value);
    DonorForm(routed.top, routed.nested, f.foodItems)
  }

  /** A new, empty food item: perishable, in kilograms. */
  function DefaultFoodItem(): Obj {
    map["type" := Str("Perishable"), "name" := Str(""), "quantity" := Str(""),
        "unit" := Str("kg"), "expiryDate" := Str("")]
  }

  /** `addFoodItem`: one default item at the end, the rest as it was. */
  function AddFoodItem(f: DonorForm): (r: DonorForm)
    ensures r.fields == f.fields && r.address == f.address
    ensures |r.foodItems| == |f.foodItems| + 1
    ensures r.foodItems[..|f.foodItems|] == f.foodItems
    ensures r.foodItems[|f.foodItems|] == DefaultFoodItem()
  {
    f.(foodItems := f.foodItems + [DefaultFoodItem()])
  }

  /** `copy.splice(i, 1)` on a copy: the element at `i` is gone, the others
      keep their order; past the end nothing is removed. */
  function RemovedAt<T>(xs: seq<T>, i: nat): (r: seq<T>)
    ensures i < |xs| ==> |r| == |xs| - 1
    ensures i < |xs| ==> forall j :: 0 <= j < i ==> r[j] == xs[j]
    ensures i < |xs| ==> forall j :: i <= j < |r| ==> r[j] == xs[j + 1]
    ensures i >= |xs| ==> r == xs
  {
    if i < |xs| then xs[..i] + xs[i + 1..] else xs
  }

  /** Removing an element removes exactly one occurrence of it. */
  lemma RemovedAtMultiset<T>(xs: seq<T>, i: nat)
    requires i < |xs|
    ensures multiset(RemovedAt(xs, i)) + multiset{xs[i]} == multiset(xs)
  {
    assert xs == xs[..i] + [xs[i]] + xs[i + 1..];
  }

  /** `removeFoodItem(i)`. */
  function RemoveFoodItem(f: DonorForm, i: nat): (r: DonorForm)
    ensures r.fields == f.fields && r.address == f.address
    ensures r.foodItems == RemovedAt(f.foodItems, i)
  {
    f.(foodItems := RemovedAt(f.foodItems, i))
  }

  /** Removing the item just added gives the form back. */
  lemma RemoveUndoesAdd(f: DonorForm)
    ensures RemoveFoodItem(AddFoodItem(f), |f.foodItems|) == f
  {
    var items := AddFoodItem(f).foodItems;
    assert RemovedAt(items, |f.foodItems|) == items[..|f.foodItems|];
  }

  /** `handleFoodItemChange(i, e)`: field `name` of item `i` gets `value`,
      nothing else changes. */
  function HandleFoodItemChange(f: DonorForm, i: nat, name: string, value: Scalar): (r: DonorForm)
    requires i < |f.foodItems|
    ensures r.fields == f.fields && r.address == f.address
    ensures |r.foodItems| == |f.foodItems|
    ensures UpdatedAt(f.foodItems[i], r.foodItems[i], name, value)
    ensures forall j :: 0 <= j < |f.foodItems| && j != i ==> r.foodItems[j] == f.foodItems[j]
  {
    f.(foodItems := f.foodItems[i := f.foodItems[i][name := value]])
  }

  /** Typing an item field's old value back restores the form. */
  lemma FoodItemChangeUndone(f: DonorForm, i: nat, name: string, value: Scalar)
    requires i < |f.foodItems| && name in f.foodItems[i]
    ensures HandleFoodItemChange(HandleFoodItemChange(f, i, name, value), i, name, f.foodItems[i][name]) == f
  {
    var g := HandleFoodItemChange(HandleFoodItemChange(f, i, name, value), i, name, f.foodItems[i][name]);
    assert g.foodItems[i].Keys == f.foodItems[i].Keys;
    assert g.foodItems[i] == f.foodItems[i];
    assert g.foodItems == f.foodItems;
  }

  // ----- reverse geocoding ------------------------------------------------

  /** The outcome of the reverse-geocoding request: the reply's `address`
      object, a reply without one, or a failed request. */
  datatype GeoReply = Found(address: Obj) | NoAddress | GeoThrew

  /** The status a page shows when the reply has no `address`. */
  const NO_ADDRESS := "Failed to retrieve address."
  /** The status a page shows when the reverse-geocoding request fails. */
  const GEOCODE_FAILED := "Failed to acquire address."

  /** The form address built from a reply's `address`: `road` to `street`,
      `county` to `city`, `postcode` to `postalCode`, `state` and `country`
      kept, each falsy part becoming `''`, so every input bound to it shows
      text. */
  function GeocodedAddress(reply: Obj): (a: Obj)
    ensures a.Keys == ADDRESS_FIELDS
    ensures a["street"] == OrElse(reply, "road", Str(""))
    ensures a["city"] == OrElse(reply, "county", Str(""))
    ensures a["state"] == OrElse(reply, "state", Str(""))
    ensures a["postalCode"] == OrElse(reply, "postcode", Str(""))
    ensures a["country"] == OrElse(reply, "country", Str(""))
    ensures forall k :: k in a ==> a[k] == Str("") || IsTruthy(a[k])
  {
    map["street" := OrElse(reply, "road", Str("")),
        "city" := OrElse(reply, "county", Str("")),
        "state" := OrElse(reply, "state", Str("")),
        "postalCode" := OrElse(reply, "postcode", Str("")),
        "country" := OrElse(reply, "country", Str(""))]
  }

  /** The geocoder's `address` object naming the parts of a form address. */
  function GeocoderAddress(a: Obj): (reply: Obj)
    requires ADDRESS_FIELDS <= a.Keys
    ensures reply.Keys == {"road", "county", "state", "postcode", "country"}
    ensures reply["road"] == a["street"] && reply["county"] == a["city"] && reply["state"] == a["state"]
    ensures reply["postcode"] == a["postalCode"] && reply["country"] == a["country"]
  {
    map["road" := a["street"], "county" := a["city"], "state" := a["state"],
        "postcode" := a["postalCode"], "country" := a["country"]]
  }

  /** Geocoding the reply that names a displayable form address gives that
      address back: the renaming loses nothing. */
  lemma GeocodedAddressRoundTrip(a: Obj)
    requires a.Keys == ADDRESS_FIELDS
    requires forall k :: k in a ==> a[k] == Str("") || IsTruthy(a[k])
    ensures GeocodedAddress(GeocoderAddress(a)) == a
  {
    var b := GeocodedAddress(GeocoderAddress(a));
    forall k | k in ADDRESS_FIELDS
      ensures b[k] == a[k]
    {
      assert a[k] == Str("") || IsTruthy(a[k]);
    }
  }

  /** An address and the location status a page shows beside it. */
  datatype Located = Located(address: Obj, status: string)

  /** What the reverse-geocoding reply does to a page's address and status:
      a found address replaces the whole address and shows `acquired`; a
      reply without one or a failed request keeps the address and says so. */
  function Geocoded(address: Obj, reply: GeoReply, acquired: string): (r: Located)
    ensures reply.Found? ==> r == Located(GeocodedAddress(reply.address), acquired)
    ensures !reply.Found? ==> r.address == address
    ensures reply.NoAddress? ==> r.status == NO_ADDRESS
    ensures reply.GeoThrew? ==> r.status == GEOCODE_FAILED
  {
    match reply
    case Found(a) => Located(GeocodedAddress(a), acquired)
    case NoAddress => Located(address, NO_ADDRESS)
    case GeoThrew => Located(address, GEOCODE_FAILED)
  }

  // ----- the sidebar dropdown ---------------------------------------------

  /** `handleDropdownToggle(name)`: the open dropdown closes, any other opens. */
  function Toggled(open: Option<string>, name: string): (r: Option<string>)
    ensures r.None? <==> open == Some(name)
    ensures r.Some? ==> r.value == name
  {
    if open == Some(name) then None else Some(name)
  }

  // ----- loading and submitting -------------------------------------------

  /** What a page does when it mounts: show an error without fetching, or
      fetch a path. */
  datatype Load = Fail(error: string) | Fetch(path: string)

  /** The outcome of a form submission: a reply (`response.ok` and the
      reply's `message`, if any) or a request that threw. */
  datatype SubmitReply = Replied(ok: bool, message: Option<string>) | Threw
}
