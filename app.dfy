/** The portal's root component (App.tsx): the role and current view, the
    appointments the check-in completes, the guest gate and the routing
    from view to screen. */
module App {
  import opened Wrappers
  import opened Types
  import JsArray
  import JsString
  import DbService
  import Dashboard
  import CheckInFlow

  /** The demo beneficiary every patient view shows. */
  const MockPatient: PatientProfile := PatientProfile(
    "1", "João Silva Oliveira", "joao.silva@unimedpoa.com.br", "12/05/1992",
    "Unimed Porto Alegre", "0032998877665544", "Unifácil Regional Coparticipativo",
    "12/2026", "", "Porto Alegre", "Maria Silva Oliveira")

  /** The appointment that check-in completes. */
  const CheckInId: string := "apt1"

  const InitialAppointments: seq<Appointment> := [
    Appointment("apt1", "João Silva Oliveira", "Dra. Marina Santos", "Cardiologia",
      "25/11", "14:30", "Centro Clínico Unimed - Unidade Norte", CheckInStatus.Available, None),
    Appointment("apt2", "João Silva Oliveira", "Dr. Ricardo Mendes", "Ortopedia",
      "02/12", "09:00", "Hospital Unimed - Bloco B", CheckInStatus.NotStarted, None)
  ]

  const InitialRequests: seq<HealthRequest> := [
    HealthRequest("req1", "João Silva Oliveira", "Exame Laboratorial",
      "Hemograma completo e perfil lipídico", "20/11/2023", Pending, None),
    HealthRequest("req2", "Carlos Eduardo Souza", "Ressonância",
      "RM Coluna Lombar", "19/11/2023", Pending, None)
  ]

  /** The update `handleCompleteCheckIn` spreads into `apt1`. */
  function CheckInPatch(token: string): AppointmentPatch {
    EmptyPatch.(checkInStatus := Some(CheckInStatus.Completed), validationToken := Some(Some(token)))
  }

  /** `prev.map(apt => apt.id === 'apt1' ? { ...apt, COMPLETED, token } : apt)`:
      same length and order; `apt1` becomes completed with the token, every
      other appointment is untouched. */
  function CompleteCheckIn(apts: seq<Appointment>, token: string): (r: seq<Appointment>)
    ensures |r| == |apts|
    ensures forall i :: 0 <= i < |r| ==> apts[i].id != CheckInId ==> r[i] == apts[i]
    ensures forall i :: 0 <= i < |r| ==> apts[i].id == CheckInId ==>
      r[i] == apts[i].(checkInStatus := CheckInStatus.Completed, validationToken := Some(token))
  {
    DbService.ApplyPatch(apts, CheckInId, CheckInPatch(token))
  }

  /** Completing a check-in keeps "a token exactly when completed". */
  lemma {:induction false} CompleteCheckInKeepsTokenInvariant(apts: seq<Appointment>, token: string)
    requires TokenIffCompleted(apts)
    ensures TokenIffCompleted(CompleteCheckIn(apts, token))
  {
    var r := CompleteCheckIn(apts, token);
    forall i | 0 <= i < |r|
      ensures r[i].validationToken.Some? <==> r[i].checkInStatus == CheckInStatus.Completed
    {
      if apts[i].id != CheckInId {
        assert r[i] == apts[i];
      }
    }
  }

  /** `requests.filter(r => r.patientName === MOCK_PATIENT.name)`: exactly
      the logged-in patient's requests. */
  function OwnRequests(requests: seq<HealthRequest>): (r: seq<HealthRequest>)
    ensures |r| <= |requests|
    ensures forall i :: 0 <= i < |r| ==> r[i] in requests && r[i].patientName == MockPatient.name
    ensures forall i :: 0 <= i < |requests| && requests[i].patientName == MockPatient.name ==> requests[i] in r
    ensures forall q: HealthRequest ::
              multiset(r)[q] == if q.patientName == MockPatient.name then multiset(requests)[q] else 0
  {
    var own := (q: HealthRequest) => q.patientName == MockPatient.name;
    assert forall q: HealthRequest ::
             multiset(JsArray.Filter(requests, own))[q] == if own(q) then multiset(requests)[q] else 0
    by {
      forall q: HealthRequest
        ensures multiset(JsArray.Filter(requests, own))[q] == if own(q) then multiset(requests)[q] else 0
      {
        JsArray.FilterCount(requests, own, q);
      }
    }
    JsArray.Filter(requests, own)
  }

  /** Of the initial requests the patient sees only the first; the other
      belongs to another beneficiary. */
  lemma PatientSeesOnlyOwnRequest()
    ensures OwnRequests(InitialRequests) == [InitialRequests[0]]
  {
    var q := InitialRequests;
    assert q[1..][1..] == [];
    assert q[1].patientName != MockPatient.name by {
      assert q[1].patientName[0] == 'C' && MockPatient.name[0] == 'J';
    }
  }

  /** What `App` renders. */
  datatype Screen =
    | LoginScreen
    | DashboardScreen(appointments: seq<Appointment>)
    /** The `find` result passed to the wizard; `None` would be `undefined`. */
    | CheckInScreen(appointment: Option<Appointment>)
    | ProfileScreen
    | RequestsScreen(requests: seq<HealthRequest>)
    | AssistantScreen
    | ManagerScreen(appointments: seq<Appointment>, requests: seq<HealthRequest>, view: ViewType)

  /** The name passed to the layout: the manager's title or the patient's
      name. */
  function HeaderName(role: UserRole): string {
    if role == Manager then "Gestor Administrativo" else MockPatient.name
  }

  /** The layout tells a manager by `patientName.includes('Gestor')`; on the
      name `App` passes, that test holds exactly for the manager role. */
  lemma HeaderMarksManager(role: UserRole)
    ensures JsString.Includes(HeaderName(role), "Gestor") <==> role == Manager
  {
    if role == Manager {
      assert JsString.OccursAt(HeaderName(role), "Gestor", 0);
    } else {
      var name := HeaderName(role);
      assert forall j :: 0 <= j < |name| ==> name[j] != 'G';
      JsString.MissingCharExcludes(name, "Gestor", 0);
    }
  }

  class AppComponent {
    var userRole: UserRole
    var currentView: ViewType
    var appointments: seq<Appointment>
    /** Never reassigned: the request form's callback does nothing. */
    var requests: seq<HealthRequest>

    /** What the handlers keep: the requests are the initial ones, the
        appointments are the initial ones in the same order with only
        `apt1` ever changed, and a token exactly when completed. */
    ghost predicate Valid()
      reads this
    {
      && requests == InitialRequests
      && |appointments| == |InitialAppointments|
      && (forall i :: 0 <= i < |appointments| ==> appointments[i].id == InitialAppointments[i].id)
      && (forall i :: 0 <= i < |appointments| && appointments[i].id != CheckInId ==>
            appointments[i] == InitialAppointments[i])
      && TokenIffCompleted(appointments)
    }

    /** A guest on the dashboard view, with the initial data. */
    constructor ()
      ensures Valid()
      ensures userRole == Guest && currentView == DashboardView
      ensures appointments == InitialAppointments && requests == InitialRequests
    {
      userRole, currentView := Guest, DashboardView;
      appointments, requests := InitialAppointments, InitialRequests;
    }

    /** `handleLogin`: a manager lands on the token monitor, anyone else on
        the dashboard. */
    method HandleLogin(role: UserRole)
      requires Valid()
      modifies this
      ensures Valid()
      ensures userRole == role
      ensures currentView == if role == Manager then ManagementTokensView else DashboardView
      ensures appointments == old(appointments) && requests == old(requests)
    {
      userRole := role;
      currentView := if role == Manager then ManagementTokensView else DashboardView;
    }

    /** `setCurrentView`, as the navigation and the check-in banner call it. */
    method SetView(v: ViewType)
      requires Valid()
      modifies this
      ensures Valid()
      ensures currentView == v
      ensures userRole == old(userRole) && appointments == old(appointments) && requests == old(requests)
    {
      currentView := v;
    }

    /** `handleCompleteCheckIn`: `apt1` becomes completed with the token and
        the view returns to the dashboard. */
    method HandleCompleteCheckIn(token: string)
      requires Valid()
      modifies this
      ensures Valid()
      ensures appointments == CompleteCheckIn(old(appointments), token)
      ensures currentView == DashboardView
      ensures userRole == old(userRole) && requests == old(requests)
    {
      CompleteCheckInKeepsTokenInvariant(appointments, token);
      appointments := CompleteCheckIn(appointments, token);
      currentView := DashboardView;
    }

    /** The request form's `onAddRequest`: a no-op, so submitting a request
        never changes what `App` holds. */
    method AddRequest(draft: HealthRequest)
      requires Valid()
      ensures Valid() && requests == InitialRequests
    {
    }

    /** The screen for the current role and view. A guest sees only the
        login; a view without a case of its own (the records view) falls
        back to the dashboard. */
    function Render(): (s: Screen)
      reads this
      ensures userRole == Guest <==> s == LoginScreen
      ensures userRole != Guest && (currentView == DashboardView || currentView == RecordsView) ==>
        s == DashboardScreen(appointments)
      ensures userRole != Guest && currentView == RequestsView ==> s == RequestsScreen(OwnRequests(requests))
      ensures userRole != Guest && (currentView == ManagementTokensView || currentView == ManagementRequestsView) ==>
        s == ManagerScreen(appointments, requests, currentView)
      ensures s.CheckInScreen? ==> userRole != Guest && currentView == CheckInView
    {
      if userRole == Guest then LoginScreen
      else
        match currentView
        case DashboardView => DashboardScreen(appointments)
        case CheckInView =>
          var found := JsArray.FindIndex(appointments, (a: Appointment) => a.id == CheckInId);
          CheckInScreen(if found.Some? then Some(appointments[found.value]) else None)
        case ProfileView => ProfileScreen
        case RequestsView => RequestsScreen(OwnRequests(requests))
        case AiAssistantView => AssistantScreen
        case ManagementTokensView => ManagerScreen(appointments, requests, currentView)
        case ManagementRequestsView => ManagerScreen(appointments, requests, currentView)
        case RecordsView => DashboardScreen(appointments)
    }

    /** The non-null assertion on `find` is safe: `apt1` is always there,
        first in the list. */
    lemma CheckInFindsFirstAppointment()
      requires Valid() && userRole != Guest && currentView == CheckInView
      ensures Render() == CheckInScreen(Some(appointments[0]))
      ensures appointments[0].id == CheckInId
    {
      assert appointments[0].id == InitialAppointments[0].id;
    }
  }

  /** The demo patient's insurer routes to the verified branch. */
  lemma MockPatientIsPOA()
    ensures CheckInFlow.IsPOA(MockPatient.insuranceName)
  {
    var marker := "Porto Alegre";
    assert MockPatient.insuranceName == "Unimed " + marker + "";
    CheckInFlow.MarkerAnywhereIsPOA("Unimed ", marker, "");
  }

  /** A patient's check-in from login to the dashboard: the banner is offered
      on the initial data; the check-in view hands `apt1` to the wizard, which
      takes the verified branch for the demo insurer; after face recognition
      and a code of four to six characters the emitted token completes `apt1`,
      and back on the dashboard the banner is gone. */
  method PatientCheckIn(code: string) returns (app: AppComponent, token: string)
    requires 4 <= |code| <= 6
    ensures fresh(app) && app.Valid()
    ensures token == CheckInFlow.PoaToken(code)
    ensures app.appointments[0] ==
      InitialAppointments[0].(checkInStatus := CheckInStatus.Completed, validationToken := Some(token))
    ensures app.appointments[1] == InitialAppointments[1]
    ensures Dashboard.IsCheckInAvailable(InitialAppointments)
    ensures app.Render() == DashboardScreen(app.appointments)
    ensures !Dashboard.IsCheckInAvailable(app.appointments)
  {
    app := new AppComponent();
    assert Dashboard.IsCheckInAvailable(app.appointments);
    app.HandleLogin(Patient);
    app.SetView(CheckInView);
    app.CheckInFindsFirstAppointment();
    var screen := app.Render();
    var apt := screen.appointment.value;
    MockPatientIsPOA();
    var wizard := new CheckInFlow.Wizard(apt, MockPatient);
    wizard.StartFaceRecognition();
    wizard.EditClinicCode(code);
    var emitted := wizard.SubmitClinicCode();
    token := emitted.value;
    app.HandleCompleteCheckIn(token);
  }
}
