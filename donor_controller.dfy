/** The donation and request handlers (backend/controllers/donor.controller.js)
    over the in-memory store, and the SMS notification they trigger. Failures
    of the database driver itself (the handlers' `catch` blocks) are not modelled. */
module DonorController {
  import opened JsValues
  import opened JsText
  import opened UserModel
  import opened DonorModel
  import opened RequestModel
  import opened Db

  const COUNTRY_CODE := "+91"
  /** "+91" followed by a ten-digit subscriber number, as ITU-T E.164 writes an Indian number. */
  const E164_LENGTH := 13

  const EMAIL_NOT_REGISTERED := "Email is not registered. Please sign up."
  const CREATE_FAILED := "Failed to create donation."
  const DONOR_NOT_FOUND := "Donor not found."
  const UPDATE_FAILED := "Failed to update donation."
  const FIELDS_REQUIRED := "All required fields must be provided."
  const REQUEST_SUBMITTED := "Request submitted successfully."
  const USER_ID_REQUIRED := "User ID is required."
  const NO_DONATIONS := "No donations found for this user."
  const REQUEST_NOT_FOUND := "Request not found"

  // ----- sendSmsNotification --------------------------------------------

  /** The number as the provider receives it: `+91` is put in front unless it
      already starts with `+`. */
  function FormatPhone(phone: string): (r: string)
    ensures StartsWith(r, '+')
    ensures |r| >= |phone| && r[|r| - |phone|..] == phone
    ensures |r| == |phone| <==> StartsWith(phone, '+')
  {
    if StartsWith(phone, '+') then phone else COUNTRY_CODE + phone
  }

  /** The provider call `sendSmsNotification(phone, message)` makes, if any. A
      wrong length is thrown and caught inside, and so is every provider error,
      so the call has no other outcome for its caller. */
  function SmsRequest(phone: string, message: Option<string>): (r: Option<Sms>)
    ensures r.Some? <==> |FormatPhone(phone)| == E164_LENGTH
    ensures r.Some? ==> r.value.to == FormatPhone(phone) && r.value.body == message
  {
    var to := FormatPhone(phone);
    if |to| != E164_LENGTH then None else Some(Sms(to, message))
  }

  /** The provider is called for exactly the thirteen-character international
      numbers and the ten-character local ones; a local one gets `+91`. */
  lemma SmsSentExactlyFor(phone: string, message: Option<string>)
    ensures SmsRequest(phone, message).Some? <==>
      (StartsWith(phone, '+') && |phone| == 13) || (!StartsWith(phone, '+') && |phone| == 10)
    ensures SmsRequest(phone, message).Some? && !StartsWith(phone, '+') ==>
      SmsRequest(phone, message).value.to == "+91" + phone
  {
  }

  function SmsLog(call: Option<Sms>): seq<Sms> {
    if call.Some? then [call.value] else []
  }

  /** The notification text: one for `Accepted`, one for `Rejected`, and
      `undefined` for anything else. */
  function StatusMessage(requesterName: string, status: string): (m: Option<string>)
    ensures m.Some? <==> status == ACCEPTED || status == REJECTED
    ensures status == ACCEPTED ==> m == Some("Hi " + requesterName + ", your food request has been accepted!")
    ensures status == REJECTED ==> m == Some("Hi " + requesterName + ", your food request has been rejected.")
  {
    if status == ACCEPTED then Some("Hi " + requesterName + ", your food request has been accepted!")
    else if status == REJECTED then Some("Hi " + requesterName + ", your food request has been rejected.")
    else None
  }

  // ----- donationform ---------------------------------------------------

  /** `POST /donor/donorform`: the listing is saved for the user whose email
      the body gives, whatever `userId` the body carries. */
  method DonationForm(db: Store, body: DonorInput, now: int) returns (res: Response<Saved<Donor>>)
    requires db.Valid()
    modifies db
    ensures db.Valid()
    ensures !Registered(old(db.users), body.email) ==> res == Failure(400, EMAIL_NOT_REGISTERED) && unchanged(db)
    ensures Registered(old(db.users), body.email) && !PassesValidators(body) ==>
      res == Failure(500, CREATE_FAILED) && unchanged(db)
    ensures res.Success? <==> Registered(old(db.users), body.email) && PassesValidators(body)
    ensures res.Success? ==>
      && res.code == 201
      && res.body.id == old(db.nextId)
      && res.body.doc.userId in old(db.users)
      && old(db.users)[res.body.doc.userId].email == body.email
      && res.body.doc == NewDonor(body, res.body.doc.userId, now)
      && db.donors == old(db.donors)[res.body.id := res.body.doc]
      && db.nextId == old(db.nextId) + 1
      && db.users == old(db.users) && db.requests == old(db.requests) && db.smsSent == old(db.smsSent)
  {
    if !Registered(db.users, body.email) {
      return Failure(400, EMAIL_NOT_REGISTERED);
    }
    var owner :| owner in db.users && db.users[owner].email == body.email;
    if !PassesValidators(body) {
      return Failure(500, CREATE_FAILED);
    }
    var donor := NewDonor(body, owner, now);
    var id := db.nextId;
    db.donors := db.donors[id := donor];
    db.nextId := id + 1;
    res := Success(201, Saved(id, donor));
  }

  // ----- updateDonor ----------------------------------------------------

  /** `PUT /donor/:id` with `runValidators`: the validators look at the update
      before the document is looked up, so an invalid update fails with 500
      even for an unknown id. */
  method UpdateDonor(db: Store, id: ObjectId, patch: DonorPatch, now: int) returns (res: Response<Saved<Donor>>)
    requires db.Valid()
    modifies db
    ensures db.Valid()
    ensures !PatchPassesValidators(patch) ==> res == Failure(500, UPDATE_FAILED) && unchanged(db)
    ensures PatchPassesValidators(patch) && id !in old(db.donors) ==>
      res == Failure(404, DONOR_NOT_FOUND) && unchanged(db)
    ensures PatchPassesValidators(patch) && id in old(db.donors) ==>
      && res == Success(200, Saved(id, Patched(old(db.donors)[id], patch, now)))
      && db.donors == old(db.donors)[id := Patched(old(db.donors)[id], patch, now)]
      && db.users == old(db.users) && db.requests == old(db.requests)
      && db.nextId == old(db.nextId) && db.smsSent == old(db.smsSent)
  {
    if !PatchPassesValidators(patch) {
      return Failure(500, UPDATE_FAILED);
    }
    if id !in db.donors {
      return Failure(404, DONOR_NOT_FOUND);
    }
    var d := Patched(db.donors[id], patch, now);
    db.donors := db.donors[id := d];
    res := Success(200, Saved(id, d));
  }

  // ----- getDonationsByUserId / getUserDonations ------------------------

  /** `Model.find({ userId })` on a collection whose documents name their
      owner through `ownerOf`: exactly the documents of `owner`, unchanged. */
  function OwnedBy<D>(docs: map<ObjectId, D>, ownerOf: D -> ObjectId, owner: ObjectId): (r: map<ObjectId, D>)
    ensures forall id :: id in r <==> id in docs && ownerOf(docs[id]) == owner
    ensures forall id :: id in r ==> r[id] == docs[id]
  {
    map id | id in docs && ownerOf(docs[id]) == owner :: docs[id]
  }

  function DonorOwner(d: Donor): ObjectId { d.userId }

  function RequestOwner(r: Request): ObjectId { r.userId }

  /** `Donor.find({ userId })`: exactly the listings owned by `owner`. */
  function DonationsOf(donors: map<ObjectId, Donor>, owner: ObjectId): (r: map<ObjectId, Donor>)
    ensures forall id :: id in r <==> id in donors && donors[id].userId == owner
    ensures forall id :: id in r ==> r[id] == donors[id]
  {
    OwnedBy(donors, DonorOwner, owner)
  }

  /** A new listing shows up among its owner's donations and no one else's. */
  lemma DonationsOfAfterInsert(donors: map<ObjectId, Donor>, id: ObjectId, d: Donor, owner: ObjectId)
    requires id !in donors
    ensures DonationsOf(donors[id := d], owner) ==
      if d.userId == owner then DonationsOf(donors, owner)[id := d] else DonationsOf(donors, owner)
  {
    var after := DonationsOf(donors[id := d], owner);
    var expected := if d.userId == owner then DonationsOf(donors, owner)[id := d] else DonationsOf(donors, owner);
    assert after.Keys == expected.Keys;
  }

  /** `GET /donor/userdonations/:userId` handled by `getDonationsByUserId`:
      an owner without listings gets an empty list, not an error. */
  function GetDonationsByUserId(db: Store, userId: ObjectId): (r: Response<map<ObjectId, Donor>>)
    reads db
    ensures r.Success? && r.code == 200
    ensures forall id :: id in r.body <==> id in db.donors && db.donors[id].userId == userId
    ensures forall id :: id in r.body ==> r.body[id] == db.donors[id]
  {
    Success(200, DonationsOf(db.donors, userId))
  }

  /** `getUserDonations`: 400 without a user id, 404 when the user owns no
      listing, otherwise that user's listings. */
  function GetUserDonations(db: Store, userId: Option<ObjectId>): (r: Response<map<ObjectId, Donor>>)
    reads db
    ensures r == Failure(400, USER_ID_REQUIRED) <==> userId.None?
    ensures r == Failure(404, NO_DONATIONS) <==>
      userId.Some? && forall id :: id in db.donors ==> db.donors[id].userId != userId.value
    ensures r.Success? ==> r.code == 200 && r.body == DonationsOf(db.donors, userId.value) && r.body != map[]
  {
    if userId.None? then Failure(400, USER_ID_REQUIRED)
    else
      var found := DonationsOf(db.donors, userId.value);
      if found == map[] then Failure(404, NO_DONATIONS) else Success(200, found)
  }

  /** The two near-duplicate handlers agree except on an owner with no
      listing, where one answers an empty list and the other 404. */
  lemma UserDonationHandlersAgree(db: Store, userId: ObjectId)
    ensures GetUserDonations(db, Some(userId)).Success? <==> GetDonationsByUserId(db, userId).body != map[]
    ensures GetUserDonations(db, Some(userId)).Success? ==>
      GetUserDonations(db, Some(userId)).body == GetDonationsByUserId(db, userId).body
  {
  }

  // ----- requestFood ----------------------------------------------------

  /** The fields of `POST /donor/request`; `None` and `""` are the falsy values. */
  datatype RequestInput = RequestInput(
    donorId: Option<ObjectId>,
    name: string,
    contactNumber: string,
    address: Option<Address>,
    latitude: Option<real>,
    longitude: Option<real>,
    description: Option<string>)

  /** `donorId`, `name`, `contactNumber` and `address` are all truthy. */
  predicate HasRequestFields(b: RequestInput) {
    b.donorId.Some? && b.name != "" && b.contactNumber != "" && b.address.Some?
  }

  /** `x || null` for a number: `0` is falsy and becomes `null` too. */
  function NumberOrNull(x: Option<real>): (r: Option<real>)
    ensures r.Some? <==> x.Some? && x.value != 0.0
    ensures r.Some? ==> r == x
  {
    if x.Some? && x.value != 0.0 then x else None
  }

  /** The request `requestFood` creates against `donor`. */
  function NewRequest(b: RequestInput, donor: Donor): (r: Request)
    requires HasRequestFields(b)
    ensures r.donorId == b.donorId.value && r.userId == donor.userId
    ensures r.requesterName == b.name && r.contactNumber == b.contactNumber
    ensures r.address == b.address.value && r.description == b.description
    ensures r.latitude == NumberOrNull(b.latitude) && r.longitude == NumberOrNull(b.longitude)
    ensures r.status == PENDING
    ensures RequestModel.SatisfiesSchema(r)
  {
    var a := b.address.value;
    Request(b.donorId.value, donor.userId, b.name, b.contactNumber,
            Address(a.street, a.city, a.state, a.postalCode, a.country),
            NumberOrNull(b.latitude), NumberOrNull(b.longitude), b.description, DefaultStatus())
  }

  /** `POST /donor/request`: the field check comes before any lookup, and an
      unknown listing stores nothing. */
  method RequestFood(db: Store, b: RequestInput) returns (res: Response<string>)
    requires db.Valid()
    modifies db
    ensures db.Valid()
    ensures !HasRequestFields(b) ==> res == Failure(400, FIELDS_REQUIRED) && unchanged(db)
    ensures HasRequestFields(b) && b.donorId.value !in old(db.donors) ==>
      res == Failure(404, DONOR_NOT_FOUND) && unchanged(db)
    ensures HasRequestFields(b) && b.donorId.value in old(db.donors) ==>
      && res == Success(200, REQUEST_SUBMITTED)
      && db.requests == old(db.requests)[old(db.nextId) := NewRequest(b, old(db.donors)[b.donorId.value])]
      && db.nextId == old(db.nextId) + 1
      && db.users == old(db.users) && db.donors == old(db.donors) && db.smsSent == old(db.smsSent)
  {
    if !HasRequestFields(b) {
      return Failure(400, FIELDS_REQUIRED);
    }
    if b.donorId.value !in db.donors {
      return Failure(404, DONOR_NOT_FOUND);
    }
    var r := NewRequest(b, db.donors[b.donorId.value]);
    var id := db.nextId;
    db.requests := db.requests[id := r];
    db.nextId := id + 1;
    res := Success(200, REQUEST_SUBMITTED);
  }

  // ----- getRequestsForDonor --------------------------------------------

  /** `Request.find({ userId })`: the requests against any listing of `owner`. */
  function RequestsFor(requests: map<ObjectId, Request>, owner: ObjectId): (r: map<ObjectId, Request>)
    ensures forall id :: id in r <==> id in requests && requests[id].userId == owner
    ensures forall id :: id in r ==> r[id] == requests[id]
  {
    OwnedBy(requests, RequestOwner, owner)
  }

  /** `GET /donor/requests/:userId`. */
  function GetRequestsForDonor(db: Store, userId: ObjectId): (r: Response<map<ObjectId, Request>>)
    reads db
    ensures r.Success? && r.code == 200
    ensures forall id :: id in r.body <==> id in db.requests && db.requests[id].userId == userId
    ensures forall id :: id in r.body ==> r.body[id] == db.requests[id]
  {
    Success(200, RequestsFor(db.requests, userId))
  }

  /** A request made on a listing reaches the listing's owner, and no one else. */
  lemma NewRequestReachesOwner(requests: map<ObjectId, Request>, id: ObjectId, b: RequestInput, donor: Donor, owner: ObjectId)
    requires id !in requests && HasRequestFields(b)
    ensures id in RequestsFor(requests[id := NewRequest(b, donor)], owner) <==> donor.userId == owner
    ensures forall k :: k in RequestsFor(requests, owner) ==>
      k in RequestsFor(requests[id := NewRequest(b, donor)], owner)
  {
  }

  // ----- getStatus ------------------------------------------------------

  /** The stored requests after the status of `id` is overwritten. */
  function StatusUpdated(requests: map<ObjectId, Request>, id: ObjectId, status: string): (r: map<ObjectId, Request>)
    requires id in requests
    ensures r.Keys == requests.Keys
    ensures r[id] == requests[id].(status := status)
    ensures forall k :: k in requests && k != id ==> r[k] == requests[k]
  {
    requests[id := requests[id].(status := status)]
  }

  /** Setting the same status twice stores the same as setting it once. */
  lemma {:induction false} StatusUpdateIdempotent(requests: map<ObjectId, Request>, id: ObjectId, status: string)
    requires id in requests
    ensures StatusUpdated(StatusUpdated(requests, id, status), id, status) == StatusUpdated(requests, id, status)
  {
    var once := StatusUpdated(requests, id, status);
    var twice := StatusUpdated(once, id, status);
    assert twice.Keys == once.Keys;
    forall k | k in once ensures twice[k] == once[k] {
      if k == id {
        assert once[id].(status := status) == once[id];
      }
    }
  }

  /** The update keeps the schema's status `enum` exactly when the new status
      is one of its values, whatever the prior status was. */
  lemma StatusUpdateSchema(requests: map<ObjectId, Request>, id: ObjectId, status: string)
    requires id in requests && HasRequiredFields(requests[id])
    ensures RequestModel.SatisfiesSchema(StatusUpdated(requests, id, status)[id]) <==> IsStatus(status)
  {
  }

  /** `PATCH /donor/requests/:requestId/status`: the status is overwritten with
      no check on the prior state or on the value, then the requester is
      notified once; the response does not depend on the notification. */
  method GetStatus(db: Store, requestId: ObjectId, status: string) returns (res: Response<Request>)
    requires db.Valid()
    modifies db
    ensures db.Valid()
    ensures requestId !in old(db.requests) ==> res == Failure(404, REQUEST_NOT_FOUND) && unchanged(db)
    ensures requestId in old(db.requests) ==>
      && res == Success(200, old(db.requests)[requestId].(status := status))
      && db.requests == StatusUpdated(old(db.requests), requestId, status)
      && db.smsSent == old(db.smsSent) + SmsLog(SmsRequest(
           old(db.requests)[requestId].contactNumber,
           StatusMessage(old(db.requests)[requestId].requesterName, status)))
      && db.users == old(db.users) && db.donors == old(db.donors) && db.nextId == old(db.nextId)
  {
    if requestId !in db.requests {
      return Failure(404, REQUEST_NOT_FOUND);
    }
    db.requests := StatusUpdated(db.requests, requestId, status);
    var request := db.requests[requestId];
    var message := StatusMessage(request.requesterName, status);
    db.smsSent := db.smsSent + SmsLog(SmsRequest(request.contactNumber, message));
    res := Success(200, request);
  }
}
