/** The `Donor` collection's schema (backend/models/donor.model.js): a donation
    listing with its owner, contact details, optional address and location,
    embedded food items and timestamps. */
module DonorModel {
  import opened JsValues
  import opened JsText
  import opened UserModel

  /** The structured postal address; every part is optional. */
  datatype Address = Address(
    street: Option<string>,
    city: Option<string>,
    state: Option<string>,
    postalCode: Option<string>,
    country: Option<string>)

  /** An embedded food item; no part is required. Dates are milliseconds since the epoch. */
  datatype FoodItem = FoodItem(
    foodType: Option<string>,
    name: Option<string>,
    quantity: Option<string>,
    unit: Option<string>,
    expiryDate: Option<int>)

  datatype Donor = Donor(
    userId: ObjectId,
    name: string,
    email: string,
    contactNumber: string,
    address: Address,
    location: Location,
    foodItems: seq<FoodItem>,
    availableUntil: Option<int>,
    createdAt: int,
    updatedAt: int)

  /** What the schema demands of a stored donor: `name` required and
      trimmed, `email` and `contactNumber` required, `location.city`/`state`
      trimmed. `userId` is required too: the type always carries one. A valid
      donor has a name that is not blank and is left as it is by the setters. */
  predicate SatisfiesSchema(d: Donor)
    ensures SatisfiesSchema(d) ==> !AllSpace(d.name) && TrimLocation(d.location) == d.location
  {
    TrimEmptyIffAllSpace(d.name);
    && d.name != ""
    && Trim(d.name) == d.name
    && d.email != ""
    && d.contactNumber != ""
    && LocationTrimmed(d.location)
  }

  /** The fields of a new listing as the request body gives them; an absent
      text field is the empty string. */
  datatype DonorInput = DonorInput(
    userId: Option<ObjectId>,
    name: string,
    email: string,
    contactNumber: string,
    address: Address,
    location: Location,
    foodItems: seq<FoodItem>,
    availableUntil: Option<int>)

  /** Whether the `required` validators accept the document built from `input`
      (they run after the `trim` setter, so a blank name is missing). */
  predicate PassesValidators(input: DonorInput) {
    Trim(input.name) != "" && input.email != "" && input.contactNumber != ""
  }

  /** `new Donor({ ...input, userId: owner })` at time `now`: the setters apply,
      the owner replaces any `userId` of the input, and both timestamps are set. */
  function NewDonor(input: DonorInput, owner: ObjectId, now: int): (d: Donor)
    ensures d.userId == owner
    ensures d.name == Trim(input.name)
    ensures d.email == input.email && d.contactNumber == input.contactNumber
    ensures d.address == input.address && d.foodItems == input.foodItems
    ensures d.availableUntil == input.availableUntil
    ensures d.location == TrimLocation(input.location)
    ensures d.createdAt == now && d.updatedAt == now
    ensures SatisfiesSchema(d) <==> PassesValidators(input)
  {
    TrimIdempotent(input.name);
    Donor(owner, Trim(input.name), input.email, input.contactNumber, input.address,
          TrimLocation(input.location), input.foodItems, input.availableUntil, now, now)
  }

  /** An update body: each top-level path is either absent (kept) or replaced. */
  datatype DonorPatch = DonorPatch(
    userId: Option<ObjectId>,
    name: Option<string>,
    email: Option<string>,
    contactNumber: Option<string>,
    address: Option<Address>,
    location: Option<Location>,
    foodItems: Option<seq<FoodItem>>,
    availableUntil: Option<int>)

  /** Update validators check only the paths the update sets. */
  predicate PatchPassesValidators(p: DonorPatch) {
    && (p.name.Some? ==> Trim(p.name.value) != "")
    && (p.email.Some? ==> p.email.value != "")
    && (p.contactNumber.Some? ==> p.contactNumber.value != "")
  }

  /** The document after `$set`-ing every path present in the patch (setters
      applied) and refreshing `updatedAt`. */
  function Patched(d: Donor, p: DonorPatch, now: int): (r: Donor)
    ensures p.userId.None? ==> r.userId == d.userId
    ensures p.name.None? ==> r.name == d.name
    ensures p.email.None? ==> r.email == d.email
    ensures p.contactNumber.None? ==> r.contactNumber == d.contactNumber
    ensures p.address.None? ==> r.address == d.address
    ensures p.location.None? ==> r.location == d.location
    ensures p.foodItems.None? ==> r.foodItems == d.foodItems
    ensures p.availableUntil.None? ==> r.availableUntil == d.availableUntil
    ensures p.userId.Some? ==> r.userId == p.userId.value
    ensures p.name.Some? ==> r.name == Trim(p.name.value)
    ensures p.email.Some? ==> r.email == p.email.value
    ensures p.contactNumber.Some? ==> r.contactNumber == p.contactNumber.value
    ensures p.address.Some? ==> r.address == p.address.value
    ensures p.location.Some? ==> r.location == TrimLocation(p.location.value)
    ensures p.foodItems.Some? ==> r.foodItems == p.foodItems.value
    ensures p.availableUntil.Some? ==> r.availableUntil == p.availableUntil
    ensures r.createdAt == d.createdAt && r.updatedAt == now
    ensures SatisfiesSchema(d) && PatchPassesValidators(p) ==> SatisfiesSchema(r)
  {
    TrimIdempotentOpt(p.name);
    d.(userId := p.userId.GetOr(d.userId),
       name := if p.name.Some? then Trim(p.name.value) else d.name,
       email := p.email.GetOr(d.email),
       contactNumber := p.contactNumber.GetOr(d.contactNumber),
       address := p.address.GetOr(d.address),
       location := if p.location.Some? then TrimLocation(p.location.value) else d.location,
       foodItems := p.foodItems.GetOr(d.foodItems),
       availableUntil := if p.availableUntil.Some? then p.availableUntil else d.availableUntil,
       updatedAt := now)
  }
}
