/** The daily cader report screen: the form's defaults, the training-line list
    edits, loading the form for a date, saving, and the two-step delete. */
module DailyCaderReport {
  import opened Wrappers
  import opened HrmTypes
  import opened FirebaseSync
  import CaderService

  /** `emptyForm()` with its date given: every counter zero and no training lines. */
  function EmptyForm(reportDate: string): (f: CaderReport)
    ensures f.reportDate == reportDate && f.trainingLineDetails == []
    ensures f.budgetCader == f.actualCader == f.presentCader == f.absentCount == f.absentPercent == 0.0
    ensures f.trainingLineCader == f.trainingLinePresent == f.trainingLineAbsentCount == 0.0
    ensures f.trainingLineAbsentPercent == f.ltoUpToDate == 0.0
  {
    CaderReport(reportDate, 0.0, 0.0, 0.0, 0.0, 0.0, 0.0, 0.0, 0.0, 0.0, 0.0, [])
  }

  /** The line `addTL` appends: an empty name and zero counters. */
  function EmptyLine(): TrainingLine {
    TrainingLine(Text(""), Number(0.0), Number(0.0), Number(0.0), Number(0.0))
  }

  /** `addTL`'s list: one empty line at the end, the earlier lines unchanged. */
  function AddLine(lines: seq<TrainingLine>): (r: seq<TrainingLine>)
    ensures |r| == |lines| + 1 && r[..|lines|] == lines && r[|lines|] == EmptyLine()
  {
    lines + [EmptyLine()]
  }

  /** `removeTL`'s list, as `filter((_, i) => i !== idx)` builds it: each line is
      kept unless its position is `idx`. */
  function RemoveLine(lines: seq<TrainingLine>, idx: int): (r: seq<TrainingLine>)
    decreases |lines|
  {
    if lines == [] then []
    else (if idx == 0 then [] else [lines[0]]) + RemoveLine(lines[1..], idx - 1)
  }

  /** `removeTL` removes exactly the line at `idx` and keeps the others in order;
      an index outside the list changes nothing. */
  lemma {:induction false} RemoveLineRemovesOne(lines: seq<TrainingLine>, idx: int)
    ensures RemoveLine(lines, idx) == if 0 <= idx < |lines| then lines[..idx] + lines[idx + 1..] else lines
  {
    if lines != [] {
      RemoveLineRemovesOne(lines[1..], idx - 1);
      if 0 < idx < |lines| {
        assert lines[..idx] == [lines[0]] + lines[1..][..idx - 1];
        assert lines[idx + 1..] == lines[1..][idx..];
      } else if idx != 0 {
        assert lines == [lines[0]] + lines[1..];
      }
    }
  }

  /** `updateTL`'s list, as `map((d, i) => i === idx ? { ...d, [field]: value } : d)` builds it. */
  function UpdateLine(lines: seq<TrainingLine>, idx: int, field: LineField, value: Scalar): (r: seq<TrainingLine>)
    ensures |r| == |lines|
    ensures forall i :: 0 <= i < |lines| && i != idx ==> r[i] == lines[i]
    ensures 0 <= idx < |lines| ==> LineGet(r[idx], field) == value
    ensures 0 <= idx < |lines| ==> forall g :: g != field ==> LineGet(r[idx], g) == LineGet(lines[idx], g)
  {
    seq(|lines|, i requires 0 <= i < |lines| => if i == idx then LineWith(lines[i], field, value) else lines[i])
  }

  /** The signed-in user's permissions that this screen consults. */
  datatype Permissions = Permissions(canEditEmployees: bool, canAddEmployees: bool)
  datatype User = User(username: string, permissions: Permissions)

  /** `canEdit`: a signed-in user who may edit or may add employees. */
  function CanEdit(user: Option<User>): (r: bool)
    ensures r <==> user.Some? && (user.value.permissions.canEditEmployees || user.value.permissions.canAddEmployees)
  {
    match user
    case None => false
    case Some(u) => u.permissions.canEditEmployees || u.permissions.canAddEmployees
  }

  /** `${err}` for the `Error` the service rethrows. */
  function ErrorText(message: string): string {
    "Error: " + message
  }

  /** The component's state. */
  class ReportScreen {
    var form: CaderReport
    var saving: bool
    var loading: bool
    var successMsg: Option<string>
    var errorMsg: Option<string>
    var deleteConfirm: bool

    constructor (today: string)
      ensures form == EmptyForm(today)
      ensures !saving && !loading && !deleteConfirm && successMsg == None && errorMsg == None
    {
      form := EmptyForm(today);
      saving, loading, deleteConfirm := false, false, false;
      successMsg, errorMsg := None, None;
    }

    /** `addTL`. */
    method AddTL()
      modifies this`form
      ensures form == old(form).(trainingLineDetails := AddLine(old(form).trainingLineDetails))
    {
      form := form.(trainingLineDetails := AddLine(form.trainingLineDetails));
    }

    /** `removeTL`. */
    method RemoveTL(idx: int)
      modifies this`form
      ensures form == old(form).(trainingLineDetails := RemoveLine(old(form).trainingLineDetails, idx))
    {
      form := form.(trainingLineDetails := RemoveLine(form.trainingLineDetails, idx));
    }

    /** `updateTL`. */
    method UpdateTL(idx: int, field: LineField, value: Scalar)
      modifies this`form
      ensures form == old(form).(trainingLineDetails := UpdateLine(old(form).trainingLineDetails, idx, field, value))
    {
      form := form.(trainingLineDetails := UpdateLine(form.trainingLineDetails, idx, field, value));
    }

    /** `loadReport`: a stored report is copied into the form; otherwise the form is
        reset to empty, keeping the date it already shows. `fault` is a local-store failure. */
    method LoadReport(local: CaderService.LocalStore, date: string, fault: Option<string>)
      requires local.Valid()
      modifies this`form, this`loading
      ensures !loading
      ensures fault.None? && date in local.reports ==> form.reportDate == date
      ensures fault.None? && date in local.reports ==> form == local.reports[date].report
      ensures fault.Some? || date !in local.reports ==>
        form == EmptyForm(old(form).reportDate) && form.reportDate == old(form).reportDate
    {
      loading := true;
      var report := CaderService.GetByDate(local, date, fault);
      if report.Some? {
        form := report.value.report;
      } else {
        form := EmptyForm(form.reportDate);
      }
      loading := false;
    }

    /** `handleSave`: saves the form through the service and reports the outcome. */
    method HandleSave(local: CaderService.LocalStore, remote: RemoteStore,
                      stored: Result<int>, rereadFault: Option<string>, net: Delivery)
      requires local.Valid()
      modifies this`saving, this`successMsg, this`errorMsg, local, remote
      ensures local.Valid() && !saving
      ensures local.reports == if stored.Ok? then old(local.reports)[form.reportDate := SavedReport(stored.value, form)]
                               else old(local.reports)
      ensures stored.Ok? ==> successMsg == Some("\U{2705} Report for " + form.reportDate + " saved.") && errorMsg == None
      ensures stored.Err? ==> errorMsg == Some("Save failed: " + ErrorText(stored.message)) && successMsg == None
      ensures stored.Err? || rereadFault.Some? ==> remote.sent == old(remote.sent) && remote.docs == old(remote.docs)
      ensures stored.Ok? && rereadFault.None? ==>
        var doc := ReportDocument(SavedReport(stored.value, form), form.trainingLineDetails);
        var p := ReportPath(remote.companyId, form.reportDate);
        && remote.sent == old(remote.sent) + (if remote.configured then [SetDoc(p, doc)] else [])
        && remote.docs == (if remote.configured && net == Delivered then Upsert(old(remote.docs), p, doc) else old(remote.docs))
      ensures remote.auditLog == old(remote.auditLog)
    {
      saving, successMsg, errorMsg := true, None, None;
      var r := CaderService.Save(local, remote, form, stored, rereadFault, net);
      if r.Ok? {
        successMsg := Some("\U{2705} Report for " + form.reportDate + " saved.");
      } else {
        errorMsg := Some("Save failed: " + ErrorText(r.message));
      }
      saving := false;
    }

    /** `handleDelete`: the first press only asks for confirmation; the confirmed press
        deletes through the service, then clears the confirmation and resets the form
        keeping its date, or on failure clears the confirmation and keeps the form. */
    method HandleDelete(local: CaderService.LocalStore, remote: RemoteStore, deleted: Result<Unit>, net: Delivery)
      requires local.Valid()
      modifies this`form, this`deleteConfirm, this`successMsg, this`errorMsg, local, remote
      ensures local.Valid() && remote.auditLog == old(remote.auditLog)
      ensures !old(deleteConfirm) ==>
        && deleteConfirm && form == old(form) && successMsg == old(successMsg) && errorMsg == old(errorMsg)
        && local.reports == old(local.reports) && remote.sent == old(remote.sent) && remote.docs == old(remote.docs)
      ensures old(deleteConfirm) ==> !deleteConfirm
      ensures old(deleteConfirm) && deleted.Ok? ==>
        && form == EmptyForm(old(form).reportDate)
        && successMsg == Some("Deleted report for " + old(form).reportDate + ".") && errorMsg == old(errorMsg)
        && local.reports == old(local.reports) - {old(form).reportDate}
        && var p := ReportPath(remote.companyId, old(form).reportDate);
           && remote.sent == old(remote.sent) + (if remote.configured then [DeleteDoc(p)] else [])
           && remote.docs == (if remote.configured && net == Delivered then Remove(old(remote.docs), p) else old(remote.docs))
      ensures old(deleteConfirm) && deleted.Err? ==>
        && form == old(form)
        && errorMsg == Some("Delete failed: " + ErrorText(deleted.message)) && successMsg == old(successMsg)
        && local.reports == old(local.reports) && remote.sent == old(remote.sent) && remote.docs == old(remote.docs)
    {
      if !deleteConfirm {
        deleteConfirm := true;
        return;
      }
      var r := CaderService.Delete(local, remote, form.reportDate, deleted, net);
      if r.Ok? {
        successMsg := Some("Deleted report for " + form.reportDate + ".");
        deleteConfirm := false;
        form := EmptyForm(form.reportDate);
      } else {
        errorMsg := Some("Delete failed: " + ErrorText(r.message));
        deleteConfirm := false;
      }
    }
  }
}
