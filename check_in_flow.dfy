/** The check-in wizard (components/CheckInFlow.tsx). Patients of the Porto
    Alegre affiliate go through face recognition and then type the clinic's
    code; everyone else confirms their data in one step. Each branch ends by
    handing a validation token to the `onComplete` callback, which here is
    the value a handler returns. */
module CheckInFlow {
  import opened Wrappers
  import opened Types
  import opened JsString

  /** The marker that routes an insurer to the verified branch. */
  const PortoAlegre: string := "porto alegre"

  /** `insuranceName.toLowerCase().includes('porto alegre')`: a
      case-insensitive substring test, not an exact match. */
  function IsPOA(insuranceName: string): (poa: bool)
    ensures poa <==> exists i: nat :: OccursAt(ToLowerCase(insuranceName), PortoAlegre, i)
  {
    Includes(ToLowerCase(insuranceName), PortoAlegre)
  }

  /** Any name that contains the marker, in any letter case, routes to the
      verified branch. */
  lemma MarkerAnywhereIsPOA(before: string, marker: string, after: string)
    requires ToLowerCase(marker) == PortoAlegre
    ensures IsPOA(before + marker + after)
  {
    var s := before + marker + after;
    var lower := ToLowerCase(s);
    assert lower[|before|..|before| + |PortoAlegre|] == ToLowerCase(marker);
    assert OccursAt(lower, PortoAlegre, |before|);
  }

  /** The token of the verified branch: the marker "POA-" and the clinic
      code upper-cased, so no lower-case letter follows the marker. */
  function PoaToken(code: string): (t: string)
    ensures |t| == 4 + |code| && t[..4] == "POA-"
    ensures forall i :: 4 <= i < |t| ==> t[i] == UpperChar(code[i - 4]) && !('a' <= t[i] <= 'z')
  {
    "POA-" + ToUpperCase(code)
  }

  /** The token of the simplified branch, `'UNI-' + Math.floor(1000 +
      Math.random() * 9000)`, with `r` the integer part of
      `Math.random() * 9000`. */
  function UniToken(r: nat): (t: string)
    requires r < 9000
    ensures |t| == 8 && t[..4] == "UNI-"
    ensures forall i :: 4 <= i < 8 ==> IsDigit(t[i])
  {
    assert Pow10(3) == 1000 && Pow10(4) == 10000;
    NumeralLength(1000 + r, 3);
    "UNI-" + NatToString(1000 + r)
  }

  /** A verified-branch token for a code of four to six characters is the
      marker followed by four to six characters, none a lower-case letter,
      that are the code's characters upper-cased. */
  lemma PoaTokenShape(code: string)
    requires 4 <= |code| <= 6
    ensures var t := PoaToken(code);
      && 8 <= |t| <= 10
      && t[..4] == "POA-"
      && t[4..] == ToUpperCase(code)
      && forall i :: 4 <= i < |t| ==> !('a' <= t[i] <= 'z')
  {
    var t := PoaToken(code);
    assert t[4..] == ToUpperCase(code);
    forall i | 4 <= i < |t| ensures !('a' <= t[i] <= 'z') {
      assert t[i] == ToUpperCase(code)[i - 4];
    }
  }

  /** A simplified-branch token is "UNI-" and four digits whose value is
      1000 + r, so lies in [1000, 9999]. */
  lemma {:induction false} UniTokenShape(r: nat)
    requires r < 9000
    ensures var t := UniToken(r);
      && |t| == 8
      && t[..4] == "UNI-"
      && (forall i :: 4 <= i < 8 ==> IsDigit(t[i]))
      && DecimalValue(t[4..]) == 1000 + r
      && 1000 <= DecimalValue(t[4..]) <= 9999
  {
    var digits := NatToString(1000 + r);
    assert Pow10(3) == 1000 && Pow10(4) == 10000;
    NumeralLength(1000 + r, 3);
    DecimalRoundTrip(1000 + r);
    var t := UniToken(r);
    assert t[4..] == digits;
  }

  /** What the wizard shows. */
  datatype Screen =
    | Confirmation(token: Option<string>)  // read-only display of an existing token
    | Loading                               // spinner while a timer runs
    | FaceCapture                           // verified branch, step 1
    | ClinicCodeEntry(code: string)         // verified branch, step 2
    | DataConfirmation                      // simplified branch
    | Blank                                 // verified branch at any other step

  class Wizard {
    const appointment: Appointment
    const patient: PatientProfile
    var step: nat
    var isLoading: bool
    var isFaceVerified: bool
    /** The clinic code typed so far. */
    var clinicToken: string

    /** The states the wizard can reach: step 1 before and step 2 after face
        recognition, no spinner between handlers (each handler's timer is
        taken as done), and a code of at most six characters (the input's
        maxLength). */
    ghost predicate Valid()
      reads this
    {
      && (step == 1 || step == 2)
      && (step == 2 <==> isFaceVerified)
      && !isLoading
      && |clinicToken| <= 6
    }

    /** The wizard starts at step 1, face not verified, no code typed. */
    constructor (appointment: Appointment, patient: PatientProfile)
      ensures Valid()
      ensures this.appointment == appointment && this.patient == patient
      ensures step == 1 && !isFaceVerified && !isLoading && clinicToken == ""
    {
      this.appointment := appointment;
      this.patient := patient;
      step, isLoading, isFaceVerified, clinicToken := 1, false, false, "";
    }

    /** The screen rendered. An appointment already completed short-circuits
        to the read-only display of its token, whatever the wizard's state. */
    function CurrentScreen(): (s: Screen)
      reads this
      ensures appointment.checkInStatus == CheckInStatus.Completed ==> s == Confirmation(appointment.validationToken)
      ensures s == FaceCapture ==> IsPOA(patient.insuranceName) && step == 1
      ensures s.ClinicCodeEntry? ==> IsPOA(patient.insuranceName) && step == 2
      ensures s == DataConfirmation ==> !IsPOA(patient.insuranceName)
      ensures s.Confirmation? ==> appointment.checkInStatus == CheckInStatus.Completed
      ensures appointment.checkInStatus != CheckInStatus.Completed && !isLoading ==>
        && (IsPOA(patient.insuranceName) && step == 1 ==> s == FaceCapture)
        && (IsPOA(patient.insuranceName) && step == 2 ==> s == ClinicCodeEntry(clinicToken))
        && (!IsPOA(patient.insuranceName) ==> s == DataConfirmation)
    {
      if appointment.checkInStatus == CheckInStatus.Completed then Confirmation(appointment.validationToken)
      else if isLoading then Loading
      else if IsPOA(patient.insuranceName) then
        if step == 1 then FaceCapture
        else if step == 2 then ClinicCodeEntry(clinicToken)
        else Blank
      else DataConfirmation
    }

    /** `startFaceRecognition`, with its two-second timer taken as done:
        recognition never fails and moves to step 2. Its button exists only
        on the face-capture screen. */
    method StartFaceRecognition()
      requires Valid() && CurrentScreen() == FaceCapture
      modifies this
      ensures Valid()
      ensures !isLoading && isFaceVerified && step == 2
      ensures clinicToken == old(clinicToken)
      ensures CurrentScreen() == ClinicCodeEntry(clinicToken)
    {
      isLoading := false;
      isFaceVerified := true;
      step := 2;
    }

    /** The code input's `onChange`; maxLength keeps the value at six
        characters at most. */
    method EditClinicCode(value: string)
      requires Valid() && CurrentScreen().ClinicCodeEntry?
      requires |value| <= 6
      modifies this
      ensures Valid()
      ensures clinicToken == value
      ensures step == old(step) && isFaceVerified == old(isFaceVerified) && isLoading == old(isLoading)
    {
      clinicToken := value;
    }

    /** `handleClinicTokenSubmit`: with at least four characters typed,
        emits "POA-" and the upper-cased code; otherwise emits nothing. The
        wizard's own state does not change. */
    method SubmitClinicCode() returns (emitted: Option<string>)
      requires Valid() && CurrentScreen().ClinicCodeEntry?
      ensures emitted.Some? <==> |clinicToken| >= 4
      ensures emitted.Some? ==> emitted.value == PoaToken(clinicToken)
    {
      if |clinicToken| >= 4 {
        emitted := Some(PoaToken(clinicToken));
      } else {
        emitted := None;
      }
    }

    /** The confirm button of the simplified branch: emits "UNI-" and a
        number in [1000, 9999], `r` standing for the random draw. */
    method ConfirmData(r: nat) returns (token: string)
      requires Valid() && CurrentScreen() == DataConfirmation
      requires r < 9000
      ensures token == UniToken(r)
      ensures |token| == 8 && token[..4] == "UNI-"
    {
      UniTokenShape(r);
      token := UniToken(r);
    }
  }

  /** For a completed appointment no step of the wizard can run: the screen
      is the confirmation in every state, and every handler asks for a
      different screen. */
  lemma CompletedRunsNoStep(w: Wizard)
    requires w.appointment.checkInStatus == CheckInStatus.Completed
    ensures w.CurrentScreen() == Confirmation(w.appointment.validationToken)
    ensures w.CurrentScreen() != FaceCapture && !w.CurrentScreen().ClinicCodeEntry?
    ensures w.CurrentScreen() != DataConfirmation
  {
  }

  /** The simplified branch end to end: for an appointment not yet completed
      and an insurer without the Porto Alegre marker, a new wizard shows the
      data confirmation, and confirming emits "UNI-" with four digits. */
  method OtherInsurerCheckIn(appointment: Appointment, patient: PatientProfile, r: nat) returns (token: string)
    requires appointment.checkInStatus != CheckInStatus.Completed
    requires !IsPOA(patient.insuranceName)
    requires r < 9000
    ensures token == UniToken(r)
    ensures |token| == 8 && token[..4] == "UNI-" && 1000 <= DecimalValue(token[4..]) <= 9999
  {
    var wizard := new Wizard(appointment, patient);
    assert wizard.CurrentScreen() == DataConfirmation;
    token := wizard.ConfirmData(r);
    UniTokenShape(r);
  }
}
