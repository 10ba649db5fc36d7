/** The manager's panel (components/ManagerDashboard.tsx): the validated
    check-ins, the pending authorizations and the approve/reject actions,
    whose effect goes both to the store and to the panel's own copy of the
    requests. */
module ManagerDashboard {
  import opened Wrappers
  import opened Types
  import JsArray
  import DbService

  /** `appointments.filter(a => a.checkInStatus === COMPLETED)`: exactly
      the completed appointments, so the "validated" count never exceeds
      the "patients today" count. */
  function ValidatedTokens(apts: seq<Appointment>): (r: seq<Appointment>)
    ensures |r| <= |apts|
    ensures forall i :: 0 <= i < |r| ==> r[i] in apts && r[i].checkInStatus == CheckInStatus.Completed
    ensures forall i :: 0 <= i < |apts| && apts[i].checkInStatus == CheckInStatus.Completed ==> apts[i] in r
    ensures forall a: Appointment ::
              multiset(r)[a] == if a.checkInStatus == CheckInStatus.Completed then multiset(apts)[a] else 0
  {
    var completed := (a: Appointment) => a.checkInStatus == CheckInStatus.Completed;
    assert forall a: Appointment ::
             multiset(JsArray.Filter(apts, completed))[a] == if completed(a) then multiset(apts)[a] else 0
    by {
      forall a: Appointment
        ensures multiset(JsArray.Filter(apts, completed))[a] == if completed(a) then multiset(apts)[a] else 0
      {
        JsArray.FilterCount(apts, completed, a);
      }
    }
    JsArray.Filter(apts, completed)
  }

  /** `requests.filter(r => r.status === PENDING)`: exactly the pending
      requests. */
  function PendingOnly(requests: seq<HealthRequest>): (r: seq<HealthRequest>)
    ensures |r| <= |requests|
    ensures forall i :: 0 <= i < |r| ==> r[i] in requests && r[i].status == Pending
    ensures forall i :: 0 <= i < |requests| && requests[i].status == Pending ==> requests[i] in r
    ensures forall q: HealthRequest :: multiset(r)[q] == if q.status == Pending then multiset(requests)[q] else 0
  {
    var pending := (q: HealthRequest) => q.status == Pending;
    assert forall q: HealthRequest ::
             multiset(JsArray.Filter(requests, pending))[q] == if pending(q) then multiset(requests)[q] else 0
    by {
      forall q: HealthRequest
        ensures multiset(JsArray.Filter(requests, pending))[q] == if pending(q) then multiset(requests)[q] else 0
      {
        JsArray.FilterCount(requests, pending, q);
      }
    }
    JsArray.Filter(requests, pending)
  }

  /** The action buttons of a request row: approve and reject, offered only
      while the request is pending. */
  function RowActions(r: HealthRequest): (actions: seq<RequestStatus>)
    ensures |actions| > 0 <==> r.status == Pending
    ensures forall i :: 0 <= i < |actions| ==> actions[i] == Approved || actions[i] == Rejected
  {
    if r.status == Pending then [Approved, Rejected] else []
  }

  /** The only status changes the panel can make are from pending to
      approved and from pending to rejected. */
  lemma OnlyPendingTransitions(r: HealthRequest, i: nat)
    requires i < |RowActions(r)|
    ensures r.status == Pending
    ensures RowActions(r)[i] != Pending && RowActions(r)[i] != RequestStatus.Completed
  {
  }

  /** What the token column shows: the token when it is a non-empty string
      (an empty one is falsy in JavaScript), "Pendente..." otherwise. */
  function TokenCell(a: Appointment): (shown: string)
    ensures a.validationToken.Some? && a.validationToken.value != "" ==> shown == a.validationToken.value
    ensures a.validationToken.None? || a.validationToken.value == "" ==> shown == "Pendente..."
  {
    match a.validationToken
    case Some(t) => if t != "" then t else "Pendente..."
    case None => "Pendente..."
  }

  /** Along the check-in flow a completed appointment carries its token, so
      its cell shows that token unless the token is empty, and an
      appointment not completed always shows "Pendente...". */
  lemma TokenCellFollowsStatus(apts: seq<Appointment>, i: nat)
    requires TokenIffCompleted(apts) && i < |apts|
    ensures apts[i].checkInStatus != CheckInStatus.Completed ==> TokenCell(apts[i]) == "Pendente..."
    ensures apts[i].checkInStatus == CheckInStatus.Completed ==>
      && apts[i].validationToken.Some?
      && (apts[i].validationToken.value != "" ==> TokenCell(apts[i]) == apts[i].validationToken.value)
  {
  }

  /** Deciding a request never makes one pending: the pending list does
      not grow. */
  lemma {:induction false} PendingNeverGrows(requests: seq<HealthRequest>, id: string, status: RequestStatus)
    requires status != Pending
    ensures |PendingOnly(DbService.WithStatus(requests, id, status))| <= |PendingOnly(requests)|
    decreases |requests|
  {
    if requests != [] {
      var after := DbService.WithStatus(requests, id, status);
      assert after[1..] == DbService.WithStatus(requests[1..], id, status);
      PendingNeverGrows(requests[1..], id, status);
    }
  }

  /** Deciding a pending request removes it from the pending list: no
      pending request with that id remains, and the list is strictly
      shorter. */
  lemma DecidedRequestLeavesPending(requests: seq<HealthRequest>, id: string, status: RequestStatus)
    requires status != Pending
    requires exists i :: 0 <= i < |requests| && requests[i].id == id && requests[i].status == Pending
    ensures forall i :: 0 <= i < |PendingOnly(DbService.WithStatus(requests, id, status))| ==>
      PendingOnly(DbService.WithStatus(requests, id, status))[i].id != id
    ensures |PendingOnly(DbService.WithStatus(requests, id, status))| < |PendingOnly(requests)|
  {
    NoPendingWithId(requests, id, status);
    PendingShrinks(requests, id, status);
  }

  lemma NoPendingWithId(requests: seq<HealthRequest>, id: string, status: RequestStatus)
    requires status != Pending
    ensures forall i :: 0 <= i < |PendingOnly(DbService.WithStatus(requests, id, status))| ==>
      PendingOnly(DbService.WithStatus(requests, id, status))[i].id != id
  {
    var after := DbService.WithStatus(requests, id, status);
    var pending := PendingOnly(after);
    forall i | 0 <= i < |pending| ensures pending[i].id != id {
      var k :| 0 <= k < |after| && after[k] == pending[i];
    }
  }

  lemma {:induction false} PendingShrinks(requests: seq<HealthRequest>, id: string, status: RequestStatus)
    requires status != Pending
    requires exists i :: 0 <= i < |requests| && requests[i].id == id && requests[i].status == Pending
    ensures |PendingOnly(DbService.WithStatus(requests, id, status))| < |PendingOnly(requests)|
    decreases |requests|
  {
    var after := DbService.WithStatus(requests, id, status);
    assert after[1..] == DbService.WithStatus(requests[1..], id, status);
    if requests[0].id == id && requests[0].status == Pending {
      PendingNeverGrows(requests[1..], id, status);
    } else {
      var j :| 0 <= j < |requests| && requests[j].id == id && requests[j].status == Pending;
      assert requests[1..][j - 1] == requests[j];
      PendingShrinks(requests[1..], id, status);
    }
  }

  class ManagerView {
    const appointments: seq<Appointment>
    /** Which table is shown: `management-tokens` or `management-requests`. */
    const view: ViewType
    /** The panel's own copy of the requests it was given. */
    var localRequests: seq<HealthRequest>

    constructor (appointments: seq<Appointment>, requests: seq<HealthRequest>, view: ViewType)
      requires view == ManagementTokensView || view == ManagementRequestsView
      ensures this.appointments == appointments && this.view == view
      ensures localRequests == requests
    {
      this.appointments := appointments;
      this.view := view;
      localRequests := requests;
    }

    /** `handleStatusUpdate`: the store's requests and the local copy are
        both rewritten the same way, so a copy that mirrored the store still
        does. */
    method HandleStatusUpdate(store: DbService.Store, id: string, status: RequestStatus)
      requires store.Valid()
      modifies this, store
      ensures store.Valid()
      ensures store.requests == DbService.WithStatus(old(store.requests), id, status)
      ensures store.users == old(store.users) && store.appointments == old(store.appointments)
      ensures store.session == old(store.session)
      ensures localRequests == DbService.WithStatus(old(localRequests), id, status)
      ensures old(localRequests) == old(store.requests) ==> localRequests == store.requests
    {
      store.UpdateRequestStatus(id, status);
      localRequests := DbService.WithStatus(localRequests, id, status);
    }
  }
}
