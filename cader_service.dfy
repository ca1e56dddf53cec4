/** The daily-report service: every write goes to the local store first, and
    only after it succeeds is a best-effort copy sent to the remote mirror,
    whose outcome never reaches the caller. */
module CaderService {
  import opened Wrappers
  import opened HrmTypes
  import opened FirebaseSync

  /** The embedded database's report table as the service sees it: one row per
      report date. The replies of its commands are chosen by the environment. */
  /** Every stored report sits under its own date (the table's primary key). */
  predicate KeyedByDate(reports: map<string, SavedReport>) {
    forall d :: d in reports ==> reports[d].report.reportDate == d
  }

  class LocalStore {
    var reports: map<string, SavedReport>

    ghost predicate Valid()
      reads this
    {
      KeyedByDate(reports)
    }

    constructor (reports: map<string, SavedReport>)
      requires KeyedByDate(reports)
      ensures Valid()
      ensures this.reports == reports
    {
      this.reports := reports;
    }

    /** The `save_daily_cader_report` command: on success the report is stored under
        its date, replacing any earlier report of that date, with the id the store replies. */
    method SaveReport(report: CaderReport, reply: Result<int>) returns (r: Result<int>)
      requires Valid()
      modifies this
      ensures Valid()
      ensures r == reply
      ensures reports == if reply.Ok? then old(reports)[report.reportDate := SavedReport(reply.value, report)]
                         else old(reports)
    {
      if reply.Ok? {
        reports := reports[report.reportDate := SavedReport(reply.value, report)];
      }
      r := reply;
    }

    /** The `delete_daily_cader_report` command: on success the date has no report. */
    method DeleteReport(reportDate: string, reply: Result<Unit>) returns (r: Result<Unit>)
      requires Valid()
      modifies this
      ensures Valid()
      ensures r == reply
      ensures reports == if reply.Ok? then old(reports) - {reportDate} else old(reports)
    {
      if reply.Ok? {
        reports := reports - {reportDate};
      }
      r := reply;
    }
  }

  /** `CaderService.getByDate`: the stored report of that date, or null when there
      is none or when the local store fails (`fault`); it never fails itself. */
  method GetByDate(local: LocalStore, reportDate: string, fault: Option<string>) returns (r: Option<SavedReport>)
    requires local.Valid()
    ensures r.Some? ==> r.value.report.reportDate == reportDate
    ensures fault.Some? ==> r == None
    ensures fault.None? && reportDate in local.reports ==> r == Some(local.reports[reportDate])
    ensures fault.None? && reportDate !in local.reports ==> r == None
  {
    if fault.Some? {
      return None;
    }
    r := if reportDate in local.reports then Some(local.reports[reportDate]) else None;
  }

  /** `CaderService.getHistory`: the store's answer to the history query, or the
      empty list when that query fails. */
  method GetHistory(limit: int, reply: Result<seq<SavedReport>>) returns (r: seq<SavedReport>)
    ensures reply.Err? ==> r == []
    ensures reply.Ok? ==> r == reply.value
  {
    r := if reply.Ok? then reply.value else [];
  }

  /** `CaderService.save`. The local write is awaited; its failure is rethrown and
      nothing is sent to the mirror. On success the report is re-read from the
      local store by date and, if found, that stored record is mirrored; whatever
      the re-read or the mirror does, the caller gets the local id. */
  method Save(local: LocalStore, remote: RemoteStore, report: CaderReport,
              stored: Result<int>, rereadFault: Option<string>, net: Delivery)
    returns (r: Result<int>)
    requires local.Valid()
    modifies local, remote
    ensures local.Valid()
    ensures r == stored
    ensures local.reports == if stored.Ok? then old(local.reports)[report.reportDate := SavedReport(stored.value, report)]
                             else old(local.reports)
    ensures stored.Err? || rereadFault.Some? ==> remote.sent == old(remote.sent) && remote.docs == old(remote.docs)
    ensures stored.Ok? && rereadFault.None? ==>
      var saved := local.reports[report.reportDate];
      var p := ReportPath(remote.companyId, report.reportDate);
      var doc := ReportDocument(saved, saved.report.trainingLineDetails);
      && remote.sent == old(remote.sent) + (if remote.configured then [SetDoc(p, doc)] else [])
      && remote.docs == (if remote.configured && net == Delivered then Upsert(old(remote.docs), p, doc) else old(remote.docs))
    ensures remote.auditLog == old(remote.auditLog)
  {
    r := local.SaveReport(report, stored);
    if r.Err? {
      return;
    }
    // Fire-and-forget: re-read what the store now holds and mirror it.
    var saved := GetByDate(local, report.reportDate, rereadFault);
    if saved.Some? {
      remote.SyncCaderReport(saved.value, saved.value.report.trainingLineDetails, net);
    }
  }

  /** `CaderService.delete`. The local delete is awaited; its failure is rethrown
      and no remote delete is sent. On success exactly one remote delete for the
      same date is dispatched, and its outcome does not reach the caller. */
  method Delete(local: LocalStore, remote: RemoteStore, reportDate: string,
                deleted: Result<Unit>, net: Delivery)
    returns (r: Result<Unit>)
    requires local.Valid()
    modifies local, remote
    ensures local.Valid()
    ensures r == deleted
    ensures local.reports == if deleted.Ok? then old(local.reports) - {reportDate} else old(local.reports)
    ensures deleted.Err? ==> remote.sent == old(remote.sent) && remote.docs == old(remote.docs)
    ensures deleted.Ok? ==>
      var p := ReportPath(remote.companyId, reportDate);
      && remote.sent == old(remote.sent) + (if remote.configured then [DeleteDoc(p)] else [])
      && remote.docs == (if remote.configured && net == Delivered then Remove(old(remote.docs), p) else old(remote.docs))
    ensures remote.auditLog == old(remote.auditLog)
  {
    r := local.DeleteReport(reportDate, deleted);
    if r.Err? {
      return;
    }
    remote.DeleteCaderReport(reportDate, net);
  }

  /** Because the mirrored details are the stored report's own details, the mirrored
      document is exactly the stored record plus the sync timestamp. */
  lemma MirrorOfStoredReport(saved: SavedReport)
    ensures ReportDocument(saved, saved.report.trainingLineDetails) == ReportFields(saved)["_synced_at" := ServerTimestamp]
  {
    var doc := ReportDocument(saved, saved.report.trainingLineDetails);
    var fields := ReportFields(saved);
    assert doc.Keys == fields.Keys + {"_synced_at"};
    assert fields["training_line_details"] == Lines(saved.report.trainingLineDetails);
  }
}
