/** The `Request` collection's schema (backend/models/request.model.js): a
    recipient's claim on a listing, with its status. */
module RequestModel {
  import opened JsValues
  import opened UserModel
  import opened DonorModel

  const PENDING := "Pending"
  const ACCEPTED := "Accepted"
  const REJECTED := "Rejected"

  /** The values the schema's `enum` admits for `status`. */
  predicate IsStatus(s: string) {
    s == PENDING || s == ACCEPTED || s == REJECTED
  }

  /** A stored request. `status` is text: the schema's `enum` is checked when a
      request is created, but not on the status update, which stores any text. */
  datatype Request = Request(
    donorId: ObjectId,
    userId: ObjectId,
    requesterName: string,
    contactNumber: string,
    address: Address,
    latitude: Option<real>,
    longitude: Option<real>,
    description: Option<string>,
    status: string)

  /** The required text paths are present (ids are always present in the type). */
  predicate HasRequiredFields(r: Request) {
    r.requesterName != "" && r.contactNumber != ""
  }

  /** Everything the schema demands, including the status `enum`. A request
      with the default status is valid exactly when its required paths are
      present. */
  predicate SatisfiesSchema(r: Request)
    ensures SatisfiesSchema(r) ==> HasRequiredFields(r)
    ensures r.status == PENDING ==> (SatisfiesSchema(r) <==> HasRequiredFields(r))
    ensures !IsStatus(r.status) ==> !SatisfiesSchema(r)
  {
    HasRequiredFields(r) && IsStatus(r.status)
  }

  /** The schema's `default` for `status`. */
  function DefaultStatus(): (s: string)
    ensures s == PENDING && IsStatus(s)
  {
    PENDING
  }
}
