/** The portal's records and enumerations (types.ts). */
module Types {
  import opened Wrappers

  /** Status of an authorization request. */
  datatype RequestStatus = Pending | Approved | Rejected | Completed

  /** Check-in state of an appointment. Both enumerations have a
      `Completed` value, so it is written qualified. */
  datatype CheckInStatus = NotStarted | Completed | Available

  datatype UserRole = Guest | Patient | Manager

  datatype ViewType =
    | DashboardView | ProfileView | RequestsView | RecordsView
    | AiAssistantView | CheckInView | ManagementTokensView | ManagementRequestsView

  /** The text value of each request status (the enum's string values). */
  function RequestStatusText(s: RequestStatus): string {
    match s
    case Pending => "Pendente"
    case Approved => "Aprovado"
    case Rejected => "Recusado"
    case Completed => "Concluído"
  }

  /** The text value of each check-in status. */
  function CheckInStatusText(s: CheckInStatus): string {
    match s
    case NotStarted => "Não Iniciado"
    case Completed => "Validado"
    case Available => "Disponível"
  }

  /** The `Patient` interface: the beneficiary shown by the views. */
  datatype PatientProfile = PatientProfile(
    id: string,
    name: string,
    email: string,
    birthDate: string,
    insuranceName: string,
    cardNumber: string,
    planType: string,
    validUntil: string,
    avatarUrl: string,
    unimedUnit: string,
    motherName: string)

  /** A stored account. The store accepts any object, so `email` and
      `cardNumber` may be absent (`None`, JavaScript's `undefined`); the
      remaining profile fields are carried along untouched in `details`. */
  datatype User = User(
    id: string,
    role: UserRole,
    name: string,
    email: Option<string>,
    cardNumber: Option<string>,
    details: map<string, string>)

  /** The `HealthRequest` interface; `kind` is the source's `type`. */
  datatype HealthRequest = HealthRequest(
    id: string,
    patientName: string,
    kind: string,
    description: string,
    date: string,
    status: RequestStatus,
    attachmentUrl: Option<string>)

  /** The `Appointment` interface. */
  datatype Appointment = Appointment(
    id: string,
    patientName: string,
    doctorName: string,
    specialty: string,
    date: string,
    time: string,
    location: string,
    checkInStatus: CheckInStatus,
    validationToken: Option<string>)

  /** A `Partial<Appointment>`: each field is either absent (`None`) or
      given. A given `validationToken` may itself be `undefined`, which the
      object spread copies over, hence the nested option. */
  datatype AppointmentPatch = AppointmentPatch(
    id: Option<string>,
    patientName: Option<string>,
    doctorName: Option<string>,
    specialty: Option<string>,
    date: Option<string>,
    time: Option<string>,
    location: Option<string>,
    checkInStatus: Option<CheckInStatus>,
    validationToken: Option<Option<string>>)

  /** The patch with no field given. */
  const EmptyPatch := AppointmentPatch(None, None, None, None, None, None, None, None, None)

  /** `{ ...a, ...patch }`: every given field overrides the record's. */
  function Merge(a: Appointment, patch: AppointmentPatch): (m: Appointment)
    ensures patch.checkInStatus.Some? ==> m.checkInStatus == patch.checkInStatus.value
    ensures patch.checkInStatus.None? ==> m.checkInStatus == a.checkInStatus
    ensures patch.validationToken.Some? ==> m.validationToken == patch.validationToken.value
    ensures patch.validationToken.None? ==> m.validationToken == a.validationToken
    ensures patch.id.Some? ==> m.id == patch.id.value
    ensures patch.id.None? ==> m.id == a.id
    ensures patch.patientName.Some? ==> m.patientName == patch.patientName.value
    ensures patch.patientName.None? ==> m.patientName == a.patientName
    ensures patch.doctorName.Some? ==> m.doctorName == patch.doctorName.value
    ensures patch.doctorName.None? ==> m.doctorName == a.doctorName
    ensures patch.specialty.Some? ==> m.specialty == patch.specialty.value
    ensures patch.specialty.None? ==> m.specialty == a.specialty
    ensures patch.date.Some? ==> m.date == patch.date.value
    ensures patch.date.None? ==> m.date == a.date
    ensures patch.time.Some? ==> m.time == patch.time.value
    ensures patch.time.None? ==> m.time == a.time
    ensures patch.location.Some? ==> m.location == patch.location.value
    ensures patch.location.None? ==> m.location == a.location
  {
    Appointment(
      patch.id.GetOr(a.id),
      patch.patientName.GetOr(a.patientName),
      patch.doctorName.GetOr(a.doctorName),
      patch.specialty.GetOr(a.specialty),
      patch.date.GetOr(a.date),
      patch.time.GetOr(a.time),
      patch.location.GetOr(a.location),
      patch.checkInStatus.GetOr(a.checkInStatus),
      patch.validationToken.GetOr(a.validationToken))
  }

  /** Merging the same patch twice is merging it once, and merging the
      empty patch changes nothing. */
  lemma MergeIdempotent(a: Appointment, patch: AppointmentPatch)
    ensures Merge(Merge(a, patch), patch) == Merge(a, patch)
    ensures Merge(a, EmptyPatch) == a
  {
  }

  /** The invariant the check-in screens rely on: an appointment carries a
      validation token exactly when its check-in is completed. */
  predicate TokenIffCompleted(apts: seq<Appointment>) {
    forall i :: 0 <= i < |apts| ==>
      (apts[i].validationToken.Some? <==> apts[i].checkInStatus == CheckInStatus.Completed)
  }
}
