/** The record store (services/dbService.ts): users, requests, appointments
    and the session, each held under its own browser-storage key. Each key
    is a field of `Store`; reading a key and writing it back is reading and
    assigning the field. */
module DbService {
  import opened Wrappers
  import opened Types
  import JsArray

  /** The errors the store throws. */
  datatype StoreError = DuplicateAccount | InvalidCredentials

  /** The message each error carries. */
  function Message(e: StoreError): string {
    match e
    case DuplicateAccount => "Usuário ou CPF já cadastrado."
    case InvalidCredentials => "Credenciais inválidas ou usuário não encontrado."
  }

  /** The appointment seeded when none is stored. */
  const DefaultAppointments: seq<Appointment> := [
    Appointment("apt_demo_1", "João Silva Oliveira", "Dra. Marina Santos",
      "Traumatologia Joelho", "25/05", "14:30", "Unidade Central",
      CheckInStatus.Available, None)
  ]

  /** Two accounts clash when they have the same email or the same card
      number (`===`, under which two absent values are equal). */
  predicate Clashes(u: User, v: User) {
    u.email == v.email || u.cardNumber == v.cardNumber
  }

  /** No two stored accounts clash. */
  predicate UniqueAccounts(users: seq<User>) {
    forall i, j :: 0 <= i < j < |users| ==> !Clashes(users[i], users[j])
  }

  predicate UniqueUserIds(users: seq<User>) {
    forall i, j :: 0 <= i < j < |users| ==> users[i].id != users[j].id
  }

  predicate UniqueRequestIds(requests: seq<HealthRequest>) {
    forall i, j :: 0 <= i < j < |requests| ==> requests[i].id != requests[j].id
  }

  /** A login identifier names an account by its email or its card number,
      and the requested role must be the account's. */
  predicate MatchesCredentials(u: User, identifier: string, role: UserRole) {
    (u.email == Some(identifier) || u.cardNumber == Some(identifier)) && u.role == role
  }

  /** Account `i` is the first, in insertion order, that the credentials
      match. */
  predicate FirstMatchAt(users: seq<User>, identifier: string, role: UserRole, i: int) {
    && 0 <= i < |users|
    && MatchesCredentials(users[i], identifier, role)
    && forall j :: 0 <= j < i ==> !MatchesCredentials(users[j], identifier, role)
  }

  /** Appending an account that clashes with none keeps the accounts unique. */
  lemma {:induction false} AppendKeepsAccountsUnique(users: seq<User>, u: User)
    requires UniqueAccounts(users)
    requires forall i :: 0 <= i < |users| ==> !Clashes(users[i], u)
    ensures UniqueAccounts(users + [u])
  {
    var s := users + [u];
    forall i, j | 0 <= i < j < |s| ensures !Clashes(s[i], s[j]) {
      if j < |users| {
        assert s[i] == users[i] && s[j] == users[j];
      } else {
        assert s[i] == users[i] && s[j] == u;
      }
    }
  }

  /** `requests.map(r => r.id === id ? { ...r, status } : r)`: same length
      and order, ids and every field but `status` untouched, and the status
      of exactly the records with that id replaced. */
  function WithStatus(requests: seq<HealthRequest>, id: string, status: RequestStatus): (r: seq<HealthRequest>)
    ensures |r| == |requests|
    ensures forall i :: 0 <= i < |r| ==> r[i] == requests[i].(status := r[i].status)
    ensures forall i :: 0 <= i < |r| ==>
      r[i].status == if requests[i].id == id then status else requests[i].status
  {
    seq(|requests|, i requires 0 <= i < |requests| =>
      if requests[i].id == id then requests[i].(status := status) else requests[i])
  }

  /** An id no record has leaves the requests unchanged. */
  lemma UnknownRequestIdIsNoop(requests: seq<HealthRequest>, id: string, status: RequestStatus)
    requires forall i :: 0 <= i < |requests| ==> requests[i].id != id
    ensures WithStatus(requests, id, status) == requests
  {
  }

  /** `appts.map(a => a.id === id ? { ...a, ...updates } : a)`: same length
      and order, the patch merged into exactly the records with that id. */
  function ApplyPatch(apts: seq<Appointment>, id: string, patch: AppointmentPatch): (r: seq<Appointment>)
    ensures |r| == |apts|
    ensures forall i :: 0 <= i < |r| ==> apts[i].id != id ==> r[i] == apts[i]
    ensures forall i :: 0 <= i < |r| ==> apts[i].id == id ==> r[i] == Merge(apts[i], patch)
  {
    seq(|apts|, i requires 0 <= i < |apts| =>
      if apts[i].id == id then Merge(apts[i], patch) else apts[i])
  }

  /** Applying the same update twice is applying it once, even when the
      update rewrites the id. */
  lemma {:induction false} ApplyPatchIdempotent(apts: seq<Appointment>, id: string, patch: AppointmentPatch)
    ensures ApplyPatch(ApplyPatch(apts, id, patch), id, patch) == ApplyPatch(apts, id, patch)
  {
    var once := ApplyPatch(apts, id, patch);
    forall i | 0 <= i < |apts| ensures ApplyPatch(once, id, patch)[i] == once[i] {
      MergeIdempotent(apts[i], patch);
    }
  }

  /** The store enforces nothing about tokens: an update may mark an
      appointment completed without giving it a token. */
  lemma PatchMayBreakTokenInvariant()
    ensures TokenIffCompleted(DefaultAppointments)
    ensures !TokenIffCompleted(ApplyPatch(DefaultAppointments, "apt_demo_1",
      EmptyPatch.(checkInStatus := Some(CheckInStatus.Completed))))
  {
    var r := ApplyPatch(DefaultAppointments, "apt_demo_1",
      EmptyPatch.(checkInStatus := Some(CheckInStatus.Completed)));
    assert r[0].checkInStatus == CheckInStatus.Completed && r[0].validationToken == None;
  }

  class Store {
    /** `urgetrauma_users` (absent reads as the empty list). */
    var users: seq<User>
    /** `urgetrauma_requests` (absent reads as the empty list). */
    var requests: seq<HealthRequest>
    /** `urgetrauma_appointments`; `None` while the key is absent. */
    var appointments: Option<seq<Appointment>>
    /** `urgetrauma_session`; `None` while the key is absent. */
    var session: Option<User>

    /** What the store's operations keep: accounts never clash, ids are
        distinct, and the session is one of the stored accounts. */
    ghost predicate Valid()
      reads this
    {
      && UniqueAccounts(users)
      && UniqueUserIds(users)
      && UniqueRequestIds(requests)
      && (session.Some? ==> session.value in users)
    }

    /** Empty storage. */
    constructor ()
      ensures Valid()
      ensures users == [] && requests == [] && appointments == None && session == None
    {
      users, requests, appointments, session := [], [], None, None;
    }

    /** `register`: fails exactly when a stored account has the same email
        or card number; otherwise appends the account with the fresh id. */
    method Register(data: User, freshId: string) returns (r: Result<User, StoreError>)
      requires Valid()
      requires forall i :: 0 <= i < |users| ==> users[i].id != freshId
      modifies this
      ensures Valid()
      ensures r.Failure? <==> exists i :: 0 <= i < |old(users)| && Clashes(old(users)[i], data)
      ensures r.Failure? ==> r.error == DuplicateAccount && users == old(users)
      ensures r.Success? ==> r.value == data.(id := freshId) && users == old(users) + [r.value]
      ensures requests == old(requests) && appointments == old(appointments) && session == old(session)
    {
      var existing := JsArray.FindIndex(users, u => Clashes(u, data));
      if existing.Some? {
        return Failure(DuplicateAccount);
      }
      var newUser := data.(id := freshId);
      forall i | 0 <= i < |users| ensures !Clashes(users[i], newUser) {
        assert !Clashes(users[i], data);
      }
      AppendKeepsAccountsUnique(users, newUser);
      users := users + [newUser];
      r := Success(newUser);
    }

    /** `login`: the first account, in insertion order, whose email or card
        number is the identifier and whose role is the requested one; it
        becomes the session. The password is never looked at. */
    method Login(identifier: string, password: Option<string>, role: UserRole) returns (r: Result<User, StoreError>)
      requires Valid()
      modifies this
      ensures Valid()
      ensures r.Failure? <==> forall i :: 0 <= i < |users| ==> !MatchesCredentials(users[i], identifier, role)
      ensures r.Failure? ==> r.error == InvalidCredentials && session == old(session)
      ensures r.Success? ==> session == Some(r.value)
      ensures r.Success? ==> exists i :: FirstMatchAt(users, identifier, role, i) && users[i] == r.value
      ensures users == old(users) && requests == old(requests) && appointments == old(appointments)
    {
      var found := JsArray.FindIndex(users, u => MatchesCredentials(u, identifier, role));
      if found.None? {
        return Failure(InvalidCredentials);
      }
      var user := users[found.value];
      session := Some(user);
      r := Success(user);
    }

    /** `logout`: removes the session key; nothing else changes. */
    method Logout()
      requires Valid()
      modifies this
      ensures Valid()
      ensures session == None
      ensures users == old(users) && requests == old(requests) && appointments == old(appointments)
    {
      session := None;
    }

    /** `getCurrentSession`: the logged-in account, or null. */
    method GetCurrentSession() returns (s: Option<User>)
      requires Valid()
      ensures s == session
      ensures s.Some? ==> s.value in users
    {
      s := session;
    }

    /** `getUsers`: every account, in insertion order. */
    method GetUsers() returns (us: seq<User>)
      requires Valid()
      ensures us == users
      ensures UniqueAccounts(us)
    {
      us := users;
    }

    /** `saveRequest`: appends the request with a fresh id, today's date and
        status `PENDING`, whatever status it came with. */
    method SaveRequest(draft: HealthRequest, freshId: string, today: string) returns (saved: HealthRequest)
      requires Valid()
      requires forall i :: 0 <= i < |requests| ==> requests[i].id != freshId
      modifies this
      ensures Valid()
      ensures saved == draft.(id := freshId, date := today, status := Pending)
      ensures requests == old(requests) + [saved]
      ensures users == old(users) && appointments == old(appointments) && session == old(session)
    {
      saved := draft.(id := freshId, date := today, status := Pending);
      requests := requests + [saved];
    }

    /** `getAllRequests`. */
    method GetAllRequests() returns (rs: seq<HealthRequest>)
      ensures rs == requests
    {
      rs := requests;
    }

    /** `updateRequestStatus`: rewrites the status of the records with that
        id; an unknown id changes nothing and throws nothing. */
    method UpdateRequestStatus(id: string, status: RequestStatus)
      requires Valid()
      modifies this
      ensures Valid()
      ensures requests == WithStatus(old(requests), id, status)
      ensures users == old(users) && appointments == old(appointments) && session == old(session)
    {
      requests := WithStatus(requests, id, status);
    }

    /** `getAllAppointments`: the stored list, or, when the key is absent,
        the default seed, which is then stored; afterwards the key always
        holds what was returned, so a second call returns the same list. */
    method GetAllAppointments() returns (apts: seq<Appointment>)
      requires Valid()
      modifies this
      ensures Valid()
      ensures appointments == Some(apts)
      ensures old(appointments).Some? ==> apts == old(appointments).value
      ensures old(appointments).None? ==> apts == DefaultAppointments
      ensures users == old(users) && requests == old(requests) && session == old(session)
    {
      if appointments.Some? {
        apts := appointments.value;
      } else {
        apts := DefaultAppointments;
        appointments := Some(apts);
      }
    }

    /** `updateAppointment`: loads (seeding if need be), merges the update
        into the records with that id, stores and returns the result. */
    method UpdateAppointment(id: string, patch: AppointmentPatch) returns (updated: seq<Appointment>)
      requires Valid()
      modifies this
      ensures Valid()
      ensures updated == ApplyPatch(old(appointments).GetOr(DefaultAppointments), id, patch)
      ensures appointments == Some(updated)
      ensures users == old(users) && requests == old(requests) && session == old(session)
    {
      var apts := GetAllAppointments();
      updated := ApplyPatch(apts, id, patch);
      appointments := Some(updated);
    }
  }

  /** Seeding happens once: two reads in a row return the same list. */
  method ReadAppointmentsTwice(store: Store) returns (first: seq<Appointment>, second: seq<Appointment>)
    requires store.Valid()
    modifies store
    ensures store.Valid()
    ensures first == second && store.appointments == Some(first)
    ensures old(store.appointments).None? ==> first == DefaultAppointments
  {
    first := store.GetAllAppointments();
    second := store.GetAllAppointments();
  }

  /** Logging out twice leaves the store as logging out once. */
  method LogoutTwice(store: Store)
    requires store.Valid()
    modifies store
    ensures store.Valid() && store.session == None
    ensures store.users == old(store.users) && store.requests == old(store.requests)
    ensures store.appointments == old(store.appointments)
  {
    store.Logout();
    store.Logout();
  }
}
