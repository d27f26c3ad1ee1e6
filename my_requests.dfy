/** The My Requests page (frontend/src/pages/MyRequests.jsx): a donor's list
    of incoming requests, the status change they make on one, and which
    controls each request shows. */
module MyRequests {
  import opened JsValues
  import opened Forms

  const USER_ID_MISSING := "User ID is missing."
  const REQUESTS_PATH := "/api/donor/requests/"
  const LOAD_FAILED := "Failed to load requests."
  const STATUS_FAILED := "Failed to update request status."
  const PENDING := "Pending"

  /** The mount effect for the route parameter `userId`: no fetch without one. */
  function LoadRequests(userId: Option<string>): (l: Load)
    ensures l == Fail(USER_ID_MISSING) <==> !TruthyText(userId)
    ensures l.Fetch? ==> TruthyText(userId) && l.path == REQUESTS_PATH + userId.value
  {
    if !TruthyText(userId) then Fail(USER_ID_MISSING) else Fetch(REQUESTS_PATH + userId.value)
  }

  /** The page state. `loadingRequestId` is `Null` when no change is running. */
  datatype Page = Page(
    requests: seq<Obj>,
    loading: bool,
    error: string,
    loadingRequestId: Scalar,
    loadingAction: string)

  /** The end of the mount effect, given the requests the server sent
      (`None` when the request failed or was not made). */
  function FinishLoad(p: Page, plan: Load, reply: Option<seq<Obj>>): (r: Page)
    ensures !r.loading
    ensures plan.Fail? ==> r == p.(error := plan.error, loading := false)
    ensures plan.Fetch? && reply.Some? ==> r == p.(requests := reply.value, loading := false)
    ensures plan.Fetch? && reply.None? ==> r == p.(error := LOAD_FAILED, loading := false)
  {
    match plan
    case Fail(e) => p.(error := e, loading := false)
    case Fetch(_) =>
      if reply.Some? then p.(requests := reply.value, loading := false)
      else p.(error := LOAD_FAILED, loading := false)
  }

  /** `prev.map(r => r._id === id ? { ...r, status } : r)`. */
  function StatusSet(rs: seq<Obj>, id: Scalar, status: string): (r: seq<Obj>)
    ensures |r| == |rs|
    ensures forall i :: 0 <= i < |rs| ==>
      r[i] == if Get(rs[i], "_id") == Some(id) then rs[i]["status" := Str(status)] else rs[i]
    decreases |rs|
  {
    if rs == [] then []
    else [if Get(rs[0], "_id") == Some(id) then rs[0]["status" := Str(status)] else rs[0]]
         + StatusSet(rs[1..], id, status)
  }

  /** With unique ids, exactly the request with that id gets the status, and
      none of its other fields change. */
  lemma StatusSetAtUniqueId(rs: seq<Obj>, k: nat, id: Scalar, status: string)
    requires k < |rs| && Get(rs[k], "_id") == Some(id)
    requires forall j :: 0 <= j < |rs| && j != k ==> Get(rs[j], "_id") != Some(id)
    ensures StatusSet(rs, id, status) == rs[k := rs[k]["status" := Str(status)]]
    ensures UpdatedAt(rs[k], StatusSet(rs, id, status)[k], "status", Str(status))
  {
    var r := StatusSet(rs, id, status);
    forall j | 0 <= j < |rs|
      ensures r[j] == rs[k := rs[k]["status" := Str(status)]][j]
    {
    }
  }

  /** Setting a status twice shows the same list as setting it once. */
  lemma StatusSetIdempotent(rs: seq<Obj>, id: Scalar, status: string)
    ensures StatusSet(StatusSet(rs, id, status), id, status) == StatusSet(rs, id, status)
  {
    var once := StatusSet(rs, id, status);
    var twice := StatusSet(once, id, status);
    forall i | 0 <= i < |rs|
      ensures twice[i] == once[i]
    {
      if Get(rs[i], "_id") == Some(id) {
        assert Get(once[i], "_id") == Some(id);
        assert once[i]["status" := Str(status)] == once[i];
      }
    }
  }

  /** The first half of `handleStatusChange`: the request and action being
      processed are recorded. */
  function BeginStatusChange(p: Page, id: Scalar, status: string): (r: Page)
    ensures r.loadingRequestId == id && r.loadingAction == status
    ensures r.(loadingRequestId := p.loadingRequestId, loadingAction := p.loadingAction) == p
  {
    p.(loadingRequestId := id, loadingAction := status)
  }

  /** `handleStatusChange(id, status)` once the `PATCH` has answered (`ok` is
      `response.ok`): on success the list shows the new status, on failure it
      is kept and an error is shown; either way the loading marks are reset. */
  function HandleStatusChange(p: Page, id: Scalar, status: string, ok: bool): (r: Page)
    ensures r.loadingRequestId == Null && r.loadingAction == "" && r.loading == p.loading
    ensures ok ==> r.requests == StatusSet(p.requests, id, status) && r.error == p.error
    ensures !ok ==> r.requests == p.requests && r.error == STATUS_FAILED
  {
    var started := BeginStatusChange(p, id, status);
    var answered := if ok then started.(requests := StatusSet(started.requests, id, status))
                    else started.(error := STATUS_FAILED);
    answered.(loadingRequestId := Null, loadingAction := "")
  }

  // ----- what each request shows ------------------------------------------

  /** The status text shown: `request.status || 'Pending'`. */
  function StatusLabel(request: Obj): (r: Scalar)
    ensures IsTruthy(r)
    ensures Truthy(request, "status") ==> r == request["status"]
    ensures !Truthy(request, "status") ==> r == Str(PENDING)
  {
    OrElse(request, "status", Str(PENDING))
  }

  /** `request.status === 'Pending'`: the Accept and Reject buttons are shown. */
  predicate ShowsDecisionButtons(request: Obj)
    ensures ShowsDecisionButtons(request) ==> StatusLabel(request) == Str(PENDING)
  {
    Get(request, "status") == Some(Str(PENDING))
  }

  /** Accept/Reject appear only on a request labelled Pending; a request with
      no status is labelled Pending yet offers neither. */
  lemma DecisionButtonsOnlyWhenPending(request: Obj)
    ensures ShowsDecisionButtons(request) ==> StatusLabel(request) == Str(PENDING)
    ensures "status" !in request ==> StatusLabel(request) == Str(PENDING) && !ShowsDecisionButtons(request)
  {
  }

  /** Once a decision is recorded, the request shows it and offers no more
      buttons. */
  lemma DecidedRequestHasNoButtons(p: Page, k: nat, id: Scalar, status: string)
    requires k < |p.requests| && Get(p.requests[k], "_id") == Some(id)
    requires status != "" && status != PENDING
    ensures var r := HandleStatusChange(p, id, status, true).requests[k];
            StatusLabel(r) == Str(status) && !ShowsDecisionButtons(r)
  {
    var r := HandleStatusChange(p, id, status, true).requests[k];
    assert r == p.requests[k]["status" := Str(status)];
  }

  /** A decision button is disabled while the other decision is being sent
      for the same request. */
  predicate ButtonDisabled(p: Page, request: Obj, action: string)
    ensures ButtonDisabled(p, request, action) ==> Get(request, "_id") == Some(p.loadingRequestId)
    ensures p.loadingAction == action ==> !ButtonDisabled(p, request, action)
    ensures p.loadingRequestId == Null && Get(request, "_id") != Some(Null) ==> !ButtonDisabled(p, request, action)
  {
    Get(request, "_id") == Some(p.loadingRequestId) && p.loadingAction != action
  }

  /** While Accept is being sent for a request, its Reject button is disabled
      and its Accept button is not; other requests are not affected. */
  lemma OnlyTheOtherButtonIsDisabled(p: Page, request: Obj, other: Obj, id: Scalar)
    requires Get(request, "_id") == Some(id) && Get(other, "_id") != Some(id)
    ensures ButtonDisabled(BeginStatusChange(p, id, "Accepted"), request, "Rejected")
    ensures !ButtonDisabled(BeginStatusChange(p, id, "Accepted"), request, "Accepted")
    ensures !ButtonDisabled(BeginStatusChange(p, id, "Accepted"), other, "Rejected")
  {
  }
}
