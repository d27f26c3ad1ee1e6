/** The three document collections and the SMS provider the backend talks to,
    as one in-memory store, and the HTTP responses its handlers produce. */
module Db {
  import opened JsValues
  import opened UserModel
  import opened DonorModel
  import opened RequestModel

  /** A JSON response: a status code with either a body or a `message`. */
  datatype Response<T> = Success(code: nat, body: T) | Failure(code: nat, message: string)

  /** A document together with the identifier the store gave it. */
  datatype Saved<T> = Saved(id: ObjectId, doc: T)

  /** One call of the SMS provider's `messages.create`; `body` is `None` when
      the caller passed an undefined message. */
  datatype Sms = Sms(to: string, body: Option<string>)

  class Store {
    var users: map<ObjectId, User>
    var donors: map<ObjectId, Donor>
    var requests: map<ObjectId, Request>
    /** Every identifier below `nextId` has been handed out. */
    var nextId: ObjectId
    /** The calls made to the SMS provider, oldest first. */
    var smsSent: seq<Sms>

    ghost predicate Valid()
      reads this
    {
      && (forall id :: id in users ==> id < nextId)
      && (forall id :: id in donors ==> id < nextId)
      && (forall id :: id in requests ==> id < nextId)
      && EmailsUnique(users)
      && (forall id :: id in users ==> UserModel.SatisfiesSchema(users[id]))
      && (forall id :: id in donors ==> DonorModel.SatisfiesSchema(donors[id]))
      && (forall id :: id in requests ==> HasRequiredFields(requests[id]))
    }

    constructor ()
      ensures Valid()
      ensures users == map[] && donors == map[] && requests == map[]
      ensures smsSent == []
    {
      users, donors, requests := map[], map[], map[];
      nextId := 0;
      smsSent := [];
    }
  }
}
