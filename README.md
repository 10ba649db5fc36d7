# Urgetrauma patient portal — Dafny model

This project models the logic core of a health-insurance patient portal, a
React front end with a browser-storage "database". The model covers:

- **Record store** (`services/dbService.ts`). Accounts, authorization
  requests, appointments and the login session, each held under a storage
  key. `DbService.Store` is a class with one field per key. Its methods read
  and reassign those fields the way the source reads, pushes to and writes
  back each key.
- **Check-in wizard** (`components/CheckInFlow.tsx`). It picks a branch by
  the insurer name. The Porto Alegre branch runs face recognition and then
  asks for a clinic code, emitting `POA-` and the code. The other branch has
  a single confirmation, emitting `UNI-` and a random four-digit number. An
  appointment already completed only shows its token. `CheckInFlow.Wizard`
  holds the component's state fields; the handlers are its methods.
- **Root component** (`App.tsx`). The role, the current view and the
  appointments live in `App.AppComponent`. The model covers login routing,
  completion of check-in on `apt1`, the guest gate, the view-to-screen
  routing with its fallback, and the filter that gives the patient only
  their own requests.
- **Manager panel** (`components/ManagerDashboard.tsx`). The model covers:
  - the validated and pending filters;
  - the approve/reject actions, offered only on pending requests;
  - the token column;
  - a status update that rewrites the store and the panel's local copy
    alike.
- **View expressions** (`components/Dashboard.tsx`, `components/Profile.tsx`).
  The model covers the check-in banner test, card masking, the greeting's
  first name, the day/month split of dates, and the grouping of the card
  number into blocks of four (`match(/.{1,4}/g)?.join(' ')`).

JavaScript built-ins get small models of their own:
- `JsString`: `toLowerCase`, `toUpperCase`, `includes`, `split` on one
  character, `join`, and number-to-decimal-string conversion.
- `JsArray`: `find`, as the index of the first match, and `filter`.

Absent values (`undefined`) are `Option.None`. Under JavaScript's `===`, two
absent values are equal, and `Option` equality reproduces that.

Two behaviours of the source that the model keeps as written:
- `handleCompleteCheckIn` (`App.tsx:80-87`) updates only `App`'s in-memory
  list of appointments and never calls the store's `updateAppointment`, so a
  completed check-in is not written to storage.
- The clinic code is upper-cased and accepted at four to six characters of
  any kind (`components/CheckInFlow.tsx:42-47`); nothing checks that they
  are letters or digits.

## Model

| member | source | states |
|---|---|---|
| Types.Merge | App.tsx:83 | an object spread: for each of the nine fields (id, patient, doctor, specialty, date, time, location, status, token), the patch's value when it gives one and the record's otherwise |
| Types.MergeIdempotent | services/dbService.ts:101 | spreading the same update twice equals spreading it once, and an empty update changes nothing |
| JsArray.FindIndex | services/dbService.ts:29 | `find`: none exactly when no element satisfies the test, else the index of the first one that does |
| JsArray.Filter | components/ManagerDashboard.tsx:27-28 | `filter`: keeps only elements that satisfy the test, keeps every such element, and keeps all elements exactly when all satisfy it |
| JsArray.FilterCount | components/ManagerDashboard.tsx:27-28 | each value that satisfies the test is kept as many times as it occurs, and any other value not at all |
| JsArray.FilterAppend | App.tsx:103 | filtering a concatenation is the concatenation of the filtered halves, so the input's order is kept |
| JsString.ToLowerCase | components/CheckInFlow.tsx:30 | same length; each character mapped; no upper-case ASCII letter remains |
| JsString.ToUpperCase | components/CheckInFlow.tsx:45 | same length; each character mapped; no lower-case ASCII letter remains |
| JsString.Includes | components/CheckInFlow.tsx:30 | true exactly when the pattern occurs at some position |
| JsString.Split | components/Dashboard.tsx:67 | at least one part, no part holds the separator, and the first part is the prefix up to the first separator or the whole string |
| JsString.Join | components/Profile.tsx:69 | `join`: empty for no parts, the part itself for one, and otherwise the first part followed by the separator |
| JsString.NatToString | components/CheckInFlow.tsx:194 | `String(n)`: one or more digits, with a leading zero only for 0 |
| JsString.SplitThenJoin | components/Profile.tsx:69 | joining the parts of a split with the separator gives the string back |
| JsString.JoinThenSplit | components/Dashboard.tsx:155-156 | splitting a join of separator-free parts gives the parts back |
| JsString.JoinLength | components/Profile.tsx:69 | a join is the parts' total length plus one separator between each two parts |
| JsString.DecimalRoundTrip | components/CheckInFlow.tsx:194 | the decimal text of a number reads back as that number |
| JsString.NumeralLength | components/CheckInFlow.tsx:194 | a number in [10^k, 10^(k+1)) is written with k+1 digits |
| DbService.AppendKeepsAccountsUnique | services/dbService.ts:29-33 | appending an account that clashes with no stored one keeps all accounts pairwise clash-free |
| DbService.WithStatus | services/dbService.ts:87 | the requests keep their length, order and every field but status; status is replaced exactly on the records with that id |
| DbService.UnknownRequestIdIsNoop | services/dbService.ts:85-89 | an id no request has leaves the requests unchanged |
| DbService.ApplyPatch | services/dbService.ts:101 | the appointments keep length and order; records with that id get the update merged in, and the others are untouched |
| DbService.ApplyPatchIdempotent | services/dbService.ts:99-104 | applying the same update twice equals applying it once |
| DbService.PatchMayBreakTokenInvariant | services/dbService.ts:99-104 | the store does not enforce "token exactly when completed": an update can mark the seeded appointment completed without a token |
| DbService.Store.constructor | services/dbService.ts:61-63 | empty storage: no accounts, no requests, no appointments key, no session |
| DbService.Store.Register | services/dbService.ts:27-36 | fails with the duplicate error exactly when a stored account has the same email or card number; otherwise appends one account with the fresh id after the unchanged earlier ones; uniqueness is kept |
| DbService.Store.Login | services/dbService.ts:38-50 | fails exactly when no account matches the identifier (email or card number) and role; otherwise returns the first match in insertion order and makes it the session; the password is never read |
| DbService.Store.Logout | services/dbService.ts:52-54 | the session is gone; nothing else changes |
| DbService.Store.GetCurrentSession | services/dbService.ts:56-59 | returns the session, which is always a stored account |
| DbService.Store.GetUsers | services/dbService.ts:61-64 | returns the accounts, which never clash |
| DbService.Store.SaveRequest | services/dbService.ts:67-78 | appends exactly one record with the fresh id, today's date and status pending, whatever status it came with; earlier requests are unchanged |
| DbService.Store.GetAllRequests | services/dbService.ts:80-83 | returns the stored requests |
| DbService.Store.UpdateRequestStatus | services/dbService.ts:85-89 | the requests become `WithStatus` of the old ones; the other keys are unchanged |
| DbService.Store.GetAllAppointments | services/dbService.ts:92-97 | returns the stored list, or seeds and stores the default when the key is absent; afterwards the key holds what was returned |
| DbService.Store.UpdateAppointment | services/dbService.ts:99-104 | stores and returns `ApplyPatch` of the stored list, or of the seed when absent |
| DbService.ReadAppointmentsTwice | services/dbService.ts:92-97 | seeding happens once: a second read returns the same list as the first |
| DbService.LogoutTwice | services/dbService.ts:52-59 | logging out twice leaves the store as logging out once: no session, everything else unchanged |
| CheckInFlow.IsPOA | components/CheckInFlow.tsx:30 | true exactly when "porto alegre" occurs somewhere in the lower-cased insurer name |
| CheckInFlow.MarkerAnywhereIsPOA | components/CheckInFlow.tsx:30 | any name containing "Porto Alegre" in any ASCII letter case, anywhere, takes the Porto Alegre branch |
| CheckInFlow.PoaToken | components/CheckInFlow.tsx:45 | "POA-" followed by the code's characters upper-cased, one for one, with no lower-case letter after the marker |
| CheckInFlow.UniToken | components/CheckInFlow.tsx:194 | 8 characters: "UNI-" followed by four digits |
| CheckInFlow.PoaTokenShape | components/CheckInFlow.tsx:45 | a token from a code of 4 to 6 characters has 8 to 10 characters: "POA-" followed by the upper-cased code, with no lower-case letter |
| CheckInFlow.UniTokenShape | components/CheckInFlow.tsx:194 | a token is 8 characters: "UNI-" followed by four digits whose value is 1000 + r, so lies in [1000, 9999] |
| CheckInFlow.Wizard.constructor | components/CheckInFlow.tsx:25-28 | starts at step 1, face not verified, not loading, empty clinic code |
| CheckInFlow.Wizard.CurrentScreen | components/CheckInFlow.tsx:57-202 | a completed appointment shows only its stored token, and only it does; face capture and code entry happen only on the Porto Alegre branch, at steps 1 and 2; the data confirmation happens only on the other branch; and conversely, for an appointment not completed and no timer running, the Porto Alegre branch shows face capture at step 1 and code entry at step 2, and every other insurer gets the data confirmation |
| CheckInFlow.Wizard.StartFaceRecognition | components/CheckInFlow.tsx:32-40 | no failure path: afterwards not loading, face verified, step 2, and the code-entry screen is shown |
| CheckInFlow.Wizard.EditClinicCode | components/CheckInFlow.tsx:142-146 | the code becomes the typed value, at most 6 characters; step and verification unchanged |
| CheckInFlow.Wizard.SubmitClinicCode | components/CheckInFlow.tsx:42-47 | emits a token exactly when the code has at least 4 characters, and then it is "POA-" with the upper-cased code |
| CheckInFlow.Wizard.ConfirmData | components/CheckInFlow.tsx:193-195 | emits "UNI-" and the four digits of 1000 + r |
| CheckInFlow.OtherInsurerCheckIn | components/CheckInFlow.tsx:98-195 | end to end on the simplified branch: a new wizard for an appointment not completed and an insurer without the marker emits "UNI-" and four digits worth 1000 to 9999 |
| CheckInFlow.CompletedRunsNoStep | components/CheckInFlow.tsx:57-84 | for a completed appointment the screen is the token display in every wizard state, so no handler's screen is ever shown |
| App.CompleteCheckIn | App.tsx:81-85 | same length and order; `apt1` becomes completed with the token; every other appointment is untouched |
| App.CompleteCheckInKeepsTokenInvariant | App.tsx:80-87 | completing check-in keeps "a token exactly when completed" |
| App.OwnRequests | App.tsx:103 | exactly the requests whose patient name is the logged-in patient's, each as many times as it occurs in the list |
| App.PatientSeesOnlyOwnRequest | App.tsx:50-67 | of the initial requests the patient sees only `req1` |
| App.HeaderMarksManager | components/Layout.tsx:27 | on the name `App` passes to the layout (`App.tsx:121`), the layout's `includes('Gestor')` test holds exactly for the manager role |
| App.AppComponent.constructor | App.tsx:70-73 | starts as a guest on the dashboard view with the initial appointments and requests |
| App.AppComponent.HandleLogin | App.tsx:75-78 | sets the role; a manager goes to the token monitor and any other role to the dashboard |
| App.AppComponent.SetView | App.tsx:120 | sets only the view |
| App.AppComponent.HandleCompleteCheckIn | App.tsx:80-87 | the appointments become `CompleteCheckIn` of the old ones and the view returns to the dashboard; the invariant (only `apt1` changes, token exactly when completed) is kept |
| App.AppComponent.AddRequest | App.tsx:103 | the request form's callback changes nothing: it may modify no field, and the requests stay the initial ones |
| App.AppComponent.Render | App.tsx:89-115 | a guest sees only the login, and only a guest does; dashboard and records views show the dashboard; the requests view gets `OwnRequests`; both manager views get the manager panel |
| App.AppComponent.CheckInFindsFirstAppointment | App.tsx:99 | in the check-in view, `find` always finds `apt1` (first in the list), so the non-null assertion never fails |
| App.MockPatientIsPOA | App.tsx:20 | the demo insurer "Unimed Porto Alegre" takes the Porto Alegre branch |
| App.PatientCheckIn | App.tsx:75-99 | end to end: the banner is offered on the initial appointments, the wizard for `apt1` emits "POA-" with the code, `apt1` becomes completed with that token, `apt2` is untouched, and back on the dashboard the banner is gone |
| ManagerDashboard.ValidatedTokens | components/ManagerDashboard.tsx:27 | exactly the completed appointments, each as many times as it occurs, and never more than there are appointments |
| ManagerDashboard.PendingOnly | components/ManagerDashboard.tsx:28 | exactly the pending requests, each as many times as it occurs, and never more than there are requests |
| ManagerDashboard.RowActions | components/ManagerDashboard.tsx:138-153 | actions are offered exactly for pending requests, and each is approve or reject |
| ManagerDashboard.OnlyPendingTransitions | components/ManagerDashboard.tsx:138-153 | the panel only moves pending requests to approved or rejected |
| ManagerDashboard.TokenCell | components/ManagerDashboard.tsx:102-106 | shows the token when it is a non-empty string, "Pendente..." otherwise |
| ManagerDashboard.TokenCellFollowsStatus | components/ManagerDashboard.tsx:102-109 | under "token exactly when completed", an appointment that is not completed shows "Pendente..." and a completed one shows its non-empty token |
| ManagerDashboard.PendingNeverGrows | components/ManagerDashboard.tsx:28-32 | approving or rejecting never lengthens the pending list |
| ManagerDashboard.DecidedRequestLeavesPending | components/ManagerDashboard.tsx:28-32 | after deciding a pending request, no pending request with that id remains and the pending list is strictly shorter |
| ManagerDashboard.ManagerView.constructor | components/ManagerDashboard.tsx:24-25 | the local copy starts as the requests given |
| ManagerDashboard.ManagerView.HandleStatusUpdate | components/ManagerDashboard.tsx:30-33 | the store's requests and the local copy are both rewritten by `WithStatus`; the other keys are unchanged; a copy that mirrored the store still does |
| Dashboard.NextAppointment | components/Dashboard.tsx:39 | the first appointment, absent exactly when the list is empty |
| Dashboard.IsCheckInAvailable | components/Dashboard.tsx:39-40 | true exactly when the list is non-empty and its first appointment is available; an empty list gives false |
| Dashboard.SliceHead | components/Dashboard.tsx:88 | `slice(0, n)`: the first n characters, or the whole of a shorter string |
| Dashboard.SliceTail | components/Dashboard.tsx:88 | `slice(-n)` for n > 0: the last n characters, or the whole of a shorter string |
| Dashboard.MaskedCard | components/Dashboard.tsx:88 | for a card of at least 4 characters, 19 characters: its first four, " **** **** ", its last four; a shorter card appears twice around the mask |
| Dashboard.MaskHidesMiddle | components/Dashboard.tsx:88 | two cards that agree on the first and last four characters show the same mask, so the middle never shows |
| Dashboard.FirstName | components/Dashboard.tsx:67 | the prefix of the name before its first space, or the whole name when it has no space |
| Dashboard.Tile | components/Dashboard.tsx:155-156 | the day is the prefix before the first '/' and runs to the end or to a '/'; the month is absent exactly when the date has no '/', and otherwise is the next slash-free field, again ending at the end or at a '/' |
| Dashboard.TileOfDayMonth | components/Dashboard.tsx:155-156 | a "day/month" date shows that day and that month |
| Dashboard.DemoMask | components/Dashboard.tsx:88 | the demo card is shown as "0032 **** **** 5544" |
| Profile.StripLineTerminators | components/Profile.tsx:69 | no line terminator is left and nothing is added; text without line terminators comes back unchanged, and a lone terminator becomes empty |
| Profile.StripAppend | components/Profile.tsx:69 | stripping distributes over concatenation, so the kept characters stay in order |
| Profile.LeadingRun | components/Profile.tsx:69 | greedy `.{1,max}`: at most max characters, none a line terminator, stopping early only at a line terminator |
| Profile.CardGroups | components/Profile.tsx:69 | every match of `/.{1,4}/g` has one to four characters and no line terminator |
| Profile.GroupsCoverCard | components/Profile.tsx:69 | the groups laid end to end are the card number without its line terminators |
| Profile.PlainCardGroups | components/Profile.tsx:69 | for a card without line terminators: the groups concatenate to it, there are ceil(n/4) of them, and all but the last have 4 characters |
| Profile.GroupedCardLength | components/Profile.tsx:69 | the shown text of a non-empty card is n + ceil(n/4) - 1 characters long |
| Profile.UngroupCard | components/Profile.tsx:69 | splitting the shown text at spaces gives back the groups, whose concatenation is the card |
| Profile.GroupedCard | components/Profile.tsx:69 | nothing is shown exactly when the card has no character `.` matches; otherwise the text is those characters plus one space between each two groups |
| Profile.FullFirstGroup | components/Profile.tsx:69 | four matchable characters form the first group on their own |
| Profile.FourFullGroups | components/Profile.tsx:69 | sixteen matchable characters form exactly four groups of four |
| Profile.FourGroupsShown | components/Profile.tsx:69 | sixteen matchable characters are shown as four blocks of four separated by single spaces |
| Profile.DemoCardGrouping | App.tsx:19 | the demo card "0032998877665544" is shown as "0032 9988 7766 5544" |

## Left out

- Browser storage and JSON serialisation: each storage key is an in-memory field, and a write followed by a read is taken as lossless.
- `crypto.randomUUID()` and `toLocaleDateString('pt-BR')` are inputs: the fresh id (with freshness as a precondition) and today's date are parameters.
- `Math.random()`: the floating-point draw is the integer part r of `Math.random() * 9000`, with 0 <= r < 9000.
- The `setTimeout` delays and the loading spinner: each timed transition is atomic, so the wizard is never observed loading between handlers.
- `nextStep` in the check-in wizard: nothing calls it.
- The Gemini call and the chat assistant: an external language-model service.
- The login, layout and request-centre forms, navigation, icons, CSS and JSX markup: presentation only. `SetView` stands for every navigation call.
- UTF-16 code units: JavaScript's `.length` (`components/CheckInFlow.tsx:44`, `152`), the input's `maxLength`, `slice` and the regular expression `/.{1,4}/` without the `u` flag count UTF-16 code units, while the model counts Unicode characters. For text outside the Basic Multilingual Plane (an emoji, say) the source can accept a shorter code, mask or group the card differently, and split a character between two groups; the model does not capture this.
- Passwords: the store never checks them, and the model keeps them only as an unused parameter of `Login`.
- JsString.ToLowerCase: maps only ASCII letters. JavaScript also maps other Unicode letters (for example "Á"), which the model leaves unchanged.
- JsString.ToUpperCase: maps only ASCII letters, for the same reason.
- DbService.Store.Register: takes the account with its email and card number as optional fields and other fields as an opaque map. It does not model arbitrary JavaScript objects.
- DbService.Store.SaveRequest: takes a complete request. A `Partial<HealthRequest>` missing fields other than id, date and status is not modelled.
- CheckInFlow.Wizard: the wizard's handlers require their own screen to be showing, because each is reachable only from a button or form on that screen. A Porto Alegre wizard past step 2 is unreachable and rendered as `Blank`.
- App.AppComponent: navigating to a view belonging to another role is possible through `SetView`. The model does not restrict this any more than the source does.
