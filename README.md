# HRM System core, modelled in Dafny

The HRM System is a desktop application for human-resource records: employees and
daily "cader" (head-count) reports. Every write lands in an embedded local
database first. A best-effort copy then goes to an optional remote document store.
The copy never blocks the user, and its failures never reach the user. A Google
sign-in gate with an email allowlist sits in front of the whole application when
the remote store is configured.

This project models that core in Dafny:

- `FirebaseConfig` (`firebase_config.dfy`) covers the build-time configuration:
  - the availability gate, which is open exactly when the API key and the project id are set;
  - the company id, which falls back to `"newlanka"`;
  - the one-time SDK initialisation over the registry of apps.
- `FirebaseSync` (`firebase_sync.dfy`) covers the remote mirror adapter:
  - the document paths and the document shapes;
  - the `RemoteStore` class, whose five operations each sit behind the gate and swallow their own failure.
  - `sent` records every call put on the network.
  - The outcome of each call (`Delivery`) is a parameter.
- `CaderService` (`cader_service.dfy`) covers the report service: local write first, then fire-and-forget mirroring.
  - The local store's `LocalStore` replies are parameters.
- `DailyCaderReport` (`daily_cader_report.dfy`) covers the report screen:
  - the form defaults and the training-line list edits;
  - loading, saving and the two-step delete, in class `ReportScreen`.
- `EmployeeForm` (`employee_form.dfy`) covers the employee editor:
  - change normalisation (`value || null`) and required-field validation;
  - submit, and the three "add new option" handlers, in class `FormState`.
- `FirebaseAuth` (`firebase_auth.dfy`) covers the sign-in gate:
  - the fail-closed allowlist check and the error-message table;
  - the six-state status machine of class `AuthProvider`.
- `CustomDatePicker` (`custom_date_picker.dfy`) covers the `YYYY-MM-DD` formatting of a picked date.
- `HrmTypes`, `JsStrings` and `Wrappers` hold the shared records and the JavaScript string built-ins the core relies on:
  - `trim` over ECMAScript white space;
  - `String(n)` and `padStart`;
  - `Option` and `Result`.

Asynchronous continuations that run after an `await` are modelled as their own
steps. This applies to the allowlist result in `AuthProvider.AllowlistChecked`. A
fire-and-forget mirror write is modelled as one atomic step right after the local
write.

## Model

| member | source | states |
|---|---|---|
| HrmTypes.With | src/components/EmployeeForm.tsx:69 | the spread-and-override `{ ...prev, [field]: v }` sets that one field to `v` and leaves the other fourteen fields as they were |
| HrmTypes.LineWith | src/components/DailyCaderReport.tsx:163 | `{ ...d, [field]: value }` on a training line sets that one column and keeps the other four |
| HrmTypes.EmployeeFields | src/services/FirebaseSyncService.ts:25 | spreading an employee yields one property per column, under its snake_case name, with the column's value (null kept as null), and never a `_synced_at` key |
| JsStrings.TrimStartShape | src/components/EmployeeForm.tsx:78 | what `trim` drops at the front is all ECMAScript white space, and what is left is a suffix of the input that does not start with white space |
| JsStrings.TrimEndShape | src/components/EmployeeForm.tsx:78 | the same at the back: the kept part is a prefix of the input that does not end in white space, and everything dropped is white space |
| JsStrings.TrimStartEmpty | src/components/EmployeeForm.tsx:78 | trimming the front leaves nothing exactly when the string is all white space |
| JsStrings.TrimEndEmpty | src/components/EmployeeForm.tsx:78 | trimming the back leaves nothing exactly when the string is all white space |
| JsStrings.BlankIffAllWhitespace | src/components/EmployeeForm.tsx:78-86 | `!x.trim()` holds exactly when `x` consists only of white space (the empty string included) |
| JsStrings.TrimShape | src/components/EmployeeForm.tsx:100-101 | the trimmed text is a contiguous slice of the input, with only white space cut on either side, and it neither starts nor ends with white space |
| JsStrings.TrimIdempotent | src/components/EmployeeForm.tsx:100-101 | trimming an already trimmed value changes nothing |
| JsStrings.NatString | src/components/CustomDatePicker.tsx:23-24 | `String(n)` of a natural number is a non-empty string of decimal digits |
| JsStrings.NatStringRoundTrip | src/components/CustomDatePicker.tsx:23-24 | reading `String(n)` back as decimal gives `n` again |
| JsStrings.NatStringLength | src/components/CustomDatePicker.tsx:23-24 | `String(n)` has exactly `k` digits when `10^(k-1) <= n < 10^k` (or `k = 1` and `n < 10`) |
| JsStrings.Repeat | src/components/CustomDatePicker.tsx:23-24 | the fill run of `padStart` has the requested length and consists of the fill character only |
| JsStrings.PadStart | src/components/CustomDatePicker.tsx:23-24 | `padStart(len, fill)` ends with the original string, is `len` long when the string is shorter (else unchanged in length), and everything before the original is the fill character |
| JsStrings.LeadingZerosValue | src/components/CustomDatePicker.tsx:23-24 | zero padding in front of a digit string keeps it all digits and does not change its decimal value |
| JsStrings.ZerosValue | src/components/CustomDatePicker.tsx:23-24 | a run of zeros is a digit string whose value is zero |
| CustomDatePicker.TwoDigitsExact | src/components/CustomDatePicker.tsx:23-24 | for 0..99, `String(n).padStart(2, "0")` is exactly two digits that read back as `n` |
| CustomDatePicker.FormatDate | src/components/CustomDatePicker.tsx:20-26 | `formatDate` returns null exactly when no date is given |
| CustomDatePicker.SplitGroups | src/components/CustomDatePicker.tsx:25 | the joined `${year}-${month}-${day}` has its dashes at positions 4 and 7 and its three groups can be cut back out |
| CustomDatePicker.FormatDateIsIsoCalendarDate | src/components/CustomDatePicker.tsx:20-26 | for a four-digit year, a month index 0-11 and a day 1-31 the text is ten characters long, `YYYY-MM-DD` shaped, and its groups read back as the year, the month index plus one and the day |
| CustomDatePicker.FormatDateInjective | src/components/CustomDatePicker.tsx:20-26 | two such dates that format to the same text are the same date |
| CustomDatePicker.HandleChange | src/components/CustomDatePicker.tsx:28-30 | the picker forwards the formatted date, and null when the date was cleared |
| FirebaseConfig.IsConfigured | src/config/firebase.ts:24-25 | the gate is open exactly when both the API key and the project id are set and non-empty |
| FirebaseConfig.GateIgnoresOtherOptions | src/config/firebase.ts:24-25 | two configurations that agree on the API key and the project id get the same gate decision |
| FirebaseConfig.CompanyId | src/config/firebase.ts:21 | the company id is never empty: the configured value when it is non-empty, otherwise `"newlanka"` |
| FirebaseConfig.AppRegistry.constructor | src/config/firebase.ts:33 | no app is registered before initialisation |
| FirebaseConfig.AppRegistry.Initialize | src/config/firebase.ts:32-36 | with the gate closed no app, database or auth exists and the registry is untouched; with it open the first registered app is reused, or exactly one app is created from the options, and database and auth both come from that app |
| FirebaseSync.EmployeePathInjective | src/services/FirebaseSyncService.ts:15-23 | two employees map to the same remote document exactly when their EPF numbers are equal |
| FirebaseSync.ReportPathInjective | src/services/FirebaseSyncService.ts:54 | two reports map to the same remote document exactly when their dates are equal |
| FirebaseSync.PrefixCancel | src/services/FirebaseSyncService.ts:15 | paths under the same company prefix are equal exactly when their tails are |
| FirebaseSync.EmployeeAndReportPathsDiffer | src/services/FirebaseSyncService.ts:23-54 | an employee document and a report document never share a path |
| FirebaseSync.EmployeeDocument | src/services/FirebaseSyncService.ts:24-27 | the mirrored employee has exactly the record's properties plus `_synced_at`, each column with the record's value, and `_synced_at` is the server timestamp |
| FirebaseSync.ReportDocument | src/services/FirebaseSyncService.ts:55-59 | the mirrored report has the report's properties plus `_synced_at`; `training_line_details` is the given details, every other property (the date included) is the report's own |
| FirebaseSync.AuditDocument | src/services/FirebaseSyncService.ts:92-95 | the audit document is the entry's properties, each with the entry's value, plus a server `timestamp`; action and username are always there, and `entity_id` is there exactly when the entry has one |
| FirebaseSync.AuditFields | src/services/FirebaseSyncService.ts:80-93 | spreading the entry yields `action`, `entity_type` and `username` always and each optional property exactly when the entry carries it, every one holding the entry's text |
| FirebaseSync.Upsert | src/services/FirebaseSyncService.ts:24-27 | `setDoc` creates or replaces the document at its path and leaves every other document as it was |
| FirebaseSync.Remove | src/services/FirebaseSyncService.ts:39 | `deleteDoc` removes the document at its path, if any, and leaves every other document as it was |
| FirebaseSync.UpsertLastWins | src/services/FirebaseSyncService.ts:24-27 | two writes to the same path leave only the second |
| FirebaseSync.EmployeeResyncOverwrites | src/services/FirebaseSyncService.ts:20-27 | syncing the same EPF number twice leaves one document holding the latest snapshot, so the store grows by at most one document |
| FirebaseSync.DeleteEmployeeKeepsReports | src/services/FirebaseSyncService.ts:36-43 | deleting an employee never touches a report document |
| FirebaseSync.DeleteReportKeepsEmployees | src/services/FirebaseSyncService.ts:68-75 | deleting a report never touches an employee document |
| FirebaseSync.RemoteStore.constructor | src/services/FirebaseSyncService.ts:11 | the store starts with the given gate, company, documents and audit log, and nothing sent |
| FirebaseSync.RemoteStore.SyncEmployee | src/services/FirebaseSyncService.ts:20-31 | with the gate closed nothing is sent and nothing changes; otherwise one `setDoc` of the employee document at its EPF path is sent, and the store holds it only if the call was delivered; a failure changes nothing and is not reported |
| FirebaseSync.RemoteStore.DeleteEmployee | src/services/FirebaseSyncService.ts:36-43 | gated; one `deleteDoc` at the EPF path is sent, and the document is gone only if the call was delivered |
| FirebaseSync.RemoteStore.SyncCaderReport | src/services/FirebaseSyncService.ts:48-63 | gated; one `setDoc` of the report document at its date is sent, and the store holds it only if the call was delivered |
| FirebaseSync.RemoteStore.DeleteCaderReport | src/services/FirebaseSyncService.ts:68-75 | gated; one `deleteDoc` at the report date is sent, and the document is gone only if the call was delivered |
| FirebaseSync.RemoteStore.SyncAuditLog | src/services/FirebaseSyncService.ts:80-99 | gated; one `addDoc` to the audit collection is sent; the log only ever grows, by at most the one audit document, and no keyed document changes |
| CaderService.LocalStore.constructor | src/services/CaderService.ts:7 | the local store starts with the given reports, each filed under its own date |
| CaderService.LocalStore.SaveReport | src/services/CaderService.ts:15 | on success the report is stored under its date with the id the store replies, replacing any earlier report of that date; on failure nothing changes |
| CaderService.LocalStore.DeleteReport | src/services/CaderService.ts:47 | on success the date has no report; on failure nothing changes |
| CaderService.GetByDate | src/services/CaderService.ts:27-33 | the stored report of the date (which carries that date), or null when there is none or the local store fails; it never fails itself |
| CaderService.GetHistory | src/services/CaderService.ts:36-42 | the store's answer, or the empty list when the query fails |
| CaderService.Save | src/services/CaderService.ts:13-24 | the caller gets exactly the local outcome; a failed local write sends nothing to the mirror; after a successful one the stored record is re-read and mirrored with its own details, gated and best-effort, and the audit log is untouched; every stored report stays under its own date |
| CaderService.Delete | src/services/CaderService.ts:45-53 | the caller gets exactly the local outcome; a failed local delete sends nothing; a successful one dispatches exactly one gated remote delete for the same date, whose outcome does not reach the caller |
| CaderService.MirrorOfStoredReport | src/services/CaderService.ts:17-18 | the document mirrored after a save is the stored record itself plus the sync timestamp |
| DailyCaderReport.EmptyForm | src/components/DailyCaderReport.tsx:6-19 | the empty form keeps the given date, has every counter at zero and has no training lines |
| DailyCaderReport.AddLine | src/components/DailyCaderReport.tsx:148-155 | adding a line appends one empty line (blank name, zero counters) and keeps the earlier lines as they were |
| DailyCaderReport.RemoveLineRemovesOne | src/components/DailyCaderReport.tsx:157-158 | removing index `idx` drops exactly that line and keeps the rest in order; an index outside the list changes nothing |
| DailyCaderReport.UpdateLine | src/components/DailyCaderReport.tsx:160-164 | updating a line keeps the list's length and every other line; at `idx` only the chosen column changes, to the new value |
| DailyCaderReport.CanEdit | src/components/DailyCaderReport.tsx:191 | editing is allowed exactly to a signed-in user who may edit or may add employees |
| DailyCaderReport.ReportScreen.constructor | src/components/DailyCaderReport.tsx:102-110 | the screen opens on the empty form for today, not saving or loading, with no message and no pending delete confirmation |
| DailyCaderReport.ReportScreen.AddTL | src/components/DailyCaderReport.tsx:148-155 | the form's training lines become `AddLine` of the old ones; nothing else in the form changes |
| DailyCaderReport.ReportScreen.RemoveTL | src/components/DailyCaderReport.tsx:157-158 | the form's training lines become `RemoveLine` of the old ones; nothing else in the form changes |
| DailyCaderReport.ReportScreen.UpdateTL | src/components/DailyCaderReport.tsx:160-164 | the form's training lines become `UpdateLine` of the old ones; nothing else in the form changes |
| DailyCaderReport.ReportScreen.LoadReport | src/components/DailyCaderReport.tsx:116-140 | a stored report of the date fills the form (so the form shows that date); otherwise (none, or a store failure) the form is reset to empty keeping its current date; loading ends false |
| DailyCaderReport.ReportScreen.HandleSave | src/components/DailyCaderReport.tsx:166-173 | saving stores the form locally on success and says "✅ Report for D saved."; when the re-read then succeeds the stored record is sent to the mirror (gate open) and lands there only if delivered; on failure it says "Save failed: Error: …" and, like a failed re-read, leaves the mirror untouched; the audit log never changes; saving ends false |
| DailyCaderReport.ReportScreen.HandleDelete | src/components/DailyCaderReport.tsx:175-183 | the first press only arms the confirmation and changes nothing else; the confirmed press always disarms it, and on success removes the local report, dispatches one remote delete for that date (gate open) that removes only that document if delivered, says "Deleted report for D." and resets the form keeping its date; on failure it keeps the form and every store and says "Delete failed: Error: …"; the audit log never changes |
| EmployeeForm.EmptyEmployee | src/components/EmployeeForm.tsx:14-30 | a new employee has the three required fields empty, working status "active", and every other field null |
| EmployeeForm.Normalize | src/components/EmployeeForm.tsx:69 | `value \|\| null` turns both null and the empty string into null and keeps every other value |
| EmployeeForm.ChangeField | src/components/EmployeeForm.tsx:68-69 | a change sets the normalised value on that field only |
| EmployeeForm.RequiredFieldErrors | src/components/EmployeeForm.tsx:75-90 | a field has an error exactly when it is required and missing (null or blank after trimming), with that field's message; there are no errors exactly when every required field is present |
| EmployeeForm.NoteIfBlank | src/components/EmployeeForm.tsx:78-86 | one validation step records its field's "is required" message exactly when the trimmed text is empty and keeps every other entry |
| EmployeeForm.ValidateAsWritten | src/components/EmployeeForm.tsx:75-90 | the validation as written fails with a TypeError exactly when some required field is null |
| EmployeeForm.ClearedRequiredFieldCrashesValidate | src/components/EmployeeForm.tsx:68-90 | clearing any required input stores null, and the next validation then throws although the field is plainly missing |
| EmployeeForm.ValidateAgreesWithoutNulls | src/components/EmployeeForm.tsx:75-90 | when no required field is null, the validation as written returns exactly the errors of `RequiredFieldErrors`: the same fields, each with its "is required" message |
| EmployeeForm.AddIfAbsent | src/components/EmployeeForm.tsx:103-105 | an item already listed leaves the list as it was, an absent one is appended at the end; so membership is the old items plus the new one and a duplicate-free list stays duplicate-free |
| EmployeeForm.AddedOptionIsTrimmed | src/components/EmployeeForm.tsx:100-106 | an added option is non-empty with no white space at either end, so adding the same entry again (trimmed once more) leaves the list unchanged |
| EmployeeForm.FormState.constructor | src/components/EmployeeForm.tsx:33-66 | the form opens on the given employee (or the empty one) with no errors, empty "new" inputs, hidden "new" rows and the given option lists |
| EmployeeForm.FormState.HandleChange | src/components/EmployeeForm.tsx:68-73 | the field takes the normalised value; that field's error is blanked only when it was set and non-empty, all other errors are kept |
| EmployeeForm.FormState.Validate | src/components/EmployeeForm.tsx:75-90 | the error map becomes the required-and-missing fields with their messages, and the result is true exactly when every required field is present |
| EmployeeForm.FormState.HandleSubmit | src/components/EmployeeForm.tsx:92-97 | the error map becomes the required-and-missing fields with their messages, and the form data is handed on exactly when validation passes, nothing otherwise |
| EmployeeForm.FormState.AddNewDepartment | src/components/EmployeeForm.tsx:99-110 | a blank entry changes nothing; otherwise the trimmed text joins the department list if absent, becomes the employee's department (blanking that field's error as a change does), and the input is cleared and hidden |
| EmployeeForm.FormState.AddNewRoute | src/components/EmployeeForm.tsx:112-123 | the same for transport routes |
| EmployeeForm.FormState.AddNewPoliceArea | src/components/EmployeeForm.tsx:125-136 | the same for police areas |
| FirebaseAuth.CheckAllowlist | src/context/FirebaseAuthContext.tsx:43-57 | the check fails closed (a failed read or a missing access document denies); otherwise the user is allowed exactly when their email (a missing email read as "") is in `allowed_emails`, a missing list counting as empty |
| FirebaseAuth.NoEmailNeedsEmptyEntry | src/context/FirebaseAuthContext.tsx:51-52 | a user without an email gets in only if the empty string is itself listed |
| FirebaseAuth.ErrorMessage | src/context/FirebaseAuthContext.tsx:128-140 | without a code the message or "Unknown error"; a known code gets its fixed text; an unknown code the message or "Unknown error" |
| FirebaseAuth.ErrorMessageNeverEmpty | src/context/FirebaseAuthContext.tsx:128-140 | the text shown for an error is never empty |
| FirebaseAuth.AuthProvider.constructor | src/context/FirebaseAuthContext.tsx:36-60 | the status starts "loading" when configured and "unconfigured" otherwise, with no user and no error; the listener is installed only when configured |
| FirebaseAuth.AuthProvider.AuthStateChanged | src/context/FirebaseAuthContext.tsx:80-87 | the user is recorded; no user means "unauthenticated" with the error cleared, a user means "checking" |
| FirebaseAuth.AuthProvider.AllowlistChecked | src/context/FirebaseAuthContext.tsx:88-92 | the status becomes "allowed" exactly when the allowlist check passes and "denied" otherwise, with "E is not authorized. Contact your administrator." as the error |
| FirebaseAuth.AuthProvider.RedirectResult | src/context/FirebaseAuthContext.tsx:63-77 | a redirect that returned a user is decided by the allowlist like the listener; no user, or an error, changes nothing |
| FirebaseAuth.AuthProvider.SignInWithGoogle | src/context/FirebaseAuthContext.tsx:97-126 | the error is cleared first; a closed popup shows no error; a blocked or unsupported popup falls back to a redirect; any other failure, or a failed redirect, shows "Sign-in failed: " and the mapped message; the status is left to the listener |
| FirebaseAuth.AuthProvider.SignOut | src/context/FirebaseAuthContext.tsx:142-147 | a successful sign-out leaves no user, "unauthenticated" and no error; it fails, changing nothing, when the store is not configured or the SDK rejects |
| FirebaseAuth.UnconfiguredStaysUnconfigured | src/context/FirebaseAuthContext.tsx:36-60 | without configuration the status stays "unconfigured" whatever the user does, and no listener is installed |

## Left out

- `src/types/employee.ts` is not part of this model. The employee record is taken as the fifteen nullable columns named in the form's defaults. The daily report is taken as the save request's fields plus the stored `id`.
- The embedded database (the Rust commands and SQLite) is not modelled. Its replies to the save, delete, lookup and history commands are parameters: `Result`, or `Option` for a fault.
- `CaderService.GetHistory`: the `limit` and the newest-first order are the database's business; the model passes its answer through.
- `CaderService.todayString`, `parseDate` of the date picker, `parseFloat` in `numField` and `toLocaleString` are left out. They read the clock or parse text through JavaScript's date and number machinery. The constructor of `ReportScreen` takes today's date as a parameter.
- `CustomDatePicker.FormatDate` takes year, month index and day as integers; the `Date` object and time zones are not modelled.
- `printCaderReport`, the history panel's loading flag and the rendered JSX are presentation only and are left out.
- The screens' auto-loading effect (`useEffect` on the report date) is not modelled separately; `ReportScreen.LoadReport` is what it calls.
- Console logging is left out.
- Network outcomes are parameters (`Delivery`), and `serverTimestamp()` is the opaque value `ServerTimestamp`. An audit document's store-assigned id is not modelled: the log is a sequence.
- Firestore's own rules are not modelled: ids containing `/`, empty ids, and the exact error a write to an undefined database raises.
- A fire-and-forget dispatch is modelled as happening atomically right after the local write. Interleavings of concurrent continuations are not modelled. One example is a stale allowlist result arriving after a later auth change; `AuthProvider.AllowlistChecked` can be called at any time, which covers the outcome but not the scheduling.
- `FirebaseAuth.ErrorMessage`: codes that coincide with prototype members of a JavaScript object (such as `"constructor"`) would find an inherited value in the error map; the model treats them as unknown codes.
- `FirebaseAuth.CheckAllowlist` takes `allowed_emails` to be an array when present; a string value would make `includes` a substring test.
- `useFirebaseAuth`, the hook that throws outside the provider, is React wiring and is left out.
- `HrmTypes.EmployeeFields`: the document has exactly the fifteen column keys, but only that each column key is present with its value, and that `_synced_at` is absent, is stated.
- Numbers are modelled as mathematical reals; floating-point rounding is not modelled.

## Findings

| source | as written | input that shows it | evidently intended | confidence | as-written member | corrected member |
|---|---|---|---|---|---|---|
| src/components/EmployeeForm.tsx:68-86 | `handleChange` stores `value \|\| null`, so clearing a required text input stores null; `validate` then calls `.trim()` on that null and throws a TypeError, so no "is required" message appears and the submit handler aborts | type a full name, delete it, press Save: `full_name` is null and `formData.full_name.trim()` throws | a cleared required field counts as missing and shows its "is required" message | not executed | EmployeeForm.ClearedRequiredFieldCrashesValidate | EmployeeForm.RequiredFieldErrors |

`EmployeeForm.ValidateAsWritten` models the validation exactly as written. `EmployeeForm.ValidateAgreesWithoutNulls` shows it agrees with the corrected `RequiredFieldErrors` whenever no required field is null. `FormState.Validate` and `FormState.HandleSubmit` use the corrected rule.
