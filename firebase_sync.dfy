/** The remote mirror adapter: five best-effort operations on the remote
    document store, each behind the availability gate and each swallowing its
    own failure. Documents are addressed by the records' natural keys. */
module FirebaseSync {
  import opened Wrappers
  import opened HrmTypes

  /** A slash-separated document or collection path. */
  type Path = string

  /** `companyRef()`: the root every path of this company hangs under. */
  function CompanyRef(companyId: string): Path {
    "companies/" + companyId
  }

  /** The document of one employee, keyed by EPF number. */
  function EmployeePath(companyId: string, epfNumber: string): Path {
    CompanyRef(companyId) + "/employees/" + epfNumber
  }

  /** The document of one daily report, keyed by report date. */
  function ReportPath(companyId: string, reportDate: string): Path {
    CompanyRef(companyId) + "/daily_cader_reports/" + reportDate
  }

  /** The append-only audit collection; its documents get store-assigned ids. */
  function AuditLogPath(companyId: string): Path {
    CompanyRef(companyId) + "/audit_logs"
  }

  lemma {:induction false} PrefixCancel(p: string, a: string, b: string)
    ensures p + a == p + b <==> a == b
  {
    if p + a == p + b {
      assert a == (p + a)[|p|..];
      assert b == (p + b)[|p|..];
    }
  }

  /** Two employees share a remote document exactly when they share an EPF number. */
  lemma EmployeePathInjective(companyId: string, a: string, b: string)
    ensures EmployeePath(companyId, a) == EmployeePath(companyId, b) <==> a == b
  {
    var p := CompanyRef(companyId) + "/employees/";
    assert EmployeePath(companyId, a) == p + a;
    assert EmployeePath(companyId, b) == p + b;
    PrefixCancel(p, a, b);
  }

  /** Two reports share a remote document exactly when they share a report date. */
  lemma ReportPathInjective(companyId: string, a: string, b: string)
    ensures ReportPath(companyId, a) == ReportPath(companyId, b) <==> a == b
  {
    var p := CompanyRef(companyId) + "/daily_cader_reports/";
    assert ReportPath(companyId, a) == p + a;
    assert ReportPath(companyId, b) == p + b;
    PrefixCancel(p, a, b);
  }

  /** An employee document and a report document are never the same document. */
  lemma EmployeeAndReportPathsDiffer(companyId: string, epfNumber: string, reportDate: string)
    ensures EmployeePath(companyId, epfNumber) != ReportPath(companyId, reportDate)
  {
    var p := CompanyRef(companyId) + "/";
    var e := EmployeePath(companyId, epfNumber);
    var r := ReportPath(companyId, reportDate);
    assert e == p + "employees/" + epfNumber;
    assert r == p + "daily_cader_reports/" + reportDate;
    assert e[|p|] == 'e';
    assert r[|p|] == 'd';
  }

  /** The mirrored employee: every column of the record plus one added `_synced_at`. */
  function EmployeeDocument(e: Employee): (doc: Document)
    ensures doc.Keys == EmployeeFields(e).Keys + {"_synced_at"}
    ensures "_synced_at" !in EmployeeFields(e) && doc["_synced_at"] == ServerTimestamp
    ensures forall f :: doc[FieldName(f)] == NullableValue(Get(e, f))
  {
    EmployeeFields(e)["_synced_at" := ServerTimestamp]
  }

  /** The mirrored report: the stored report's properties, its details replaced by
      the `details` argument, plus one added `_synced_at`. */
  function ReportDocument(report: SavedReport, details: seq<TrainingLine>): (doc: Document)
    ensures doc.Keys == ReportFields(report).Keys + {"_synced_at"}
    ensures doc["training_line_details"] == Lines(details)
    ensures doc["report_date"] == Plain(Text(report.report.reportDate))
    ensures doc["_synced_at"] == ServerTimestamp
    ensures forall k :: k in ReportFields(report) && k != "training_line_details" && k != "_synced_at" ==>
      doc[k] == ReportFields(report)[k]
  {
    ReportFields(report)["training_line_details" := Lines(details)]["_synced_at" := ServerTimestamp]
  }

  /** An audit event; the optional properties are left out of the document when absent. */
  datatype AuditEntry = AuditEntry(
    action: string,
    entityType: string,
    entityId: Option<string>,
    details: Option<string>,
    username: string,
    userRole: Option<string>,
    machineName: Option<string>)

  /** Whether the spread `...entry` carries property `k`: the three required ones
      always, an optional one exactly when the entry has it. */
  predicate Carries(entry: AuditEntry, k: string) {
    || k == "action" || k == "entity_type" || k == "username"
    || (k == "entity_id" && entry.entityId.Some?)
    || (k == "details" && entry.details.Some?)
    || (k == "user_role" && entry.userRole.Some?)
    || (k == "machine_name" && entry.machineName.Some?)
  }

  function PropertyText(entry: AuditEntry, k: string): string {
    if k == "action" then entry.action
    else if k == "entity_type" then entry.entityType
    else if k == "username" then entry.username
    else if k == "entity_id" then entry.entityId.GetOr("")
    else if k == "details" then entry.details.GetOr("")
    else if k == "user_role" then entry.userRole.GetOr("")
    else entry.machineName.GetOr("")
  }

  /** The spread `...entry`: exactly the properties the entry carries, each holding
      the entry's text. */
  function AuditFields(entry: AuditEntry): (d: Document)
    ensures forall k :: k in d <==> Carries(entry, k)
    ensures "action" in d && d["action"] == Plain(Text(entry.action))
    ensures "entity_type" in d && d["entity_type"] == Plain(Text(entry.entityType))
    ensures "username" in d && d["username"] == Plain(Text(entry.username))
    ensures entry.entityId.Some? ==> "entity_id" in d && d["entity_id"] == Plain(Text(entry.entityId.value))
    ensures entry.details.Some? ==> "details" in d && d["details"] == Plain(Text(entry.details.value))
    ensures entry.userRole.Some? ==> "user_role" in d && d["user_role"] == Plain(Text(entry.userRole.value))
    ensures entry.machineName.Some? ==> "machine_name" in d && d["machine_name"] == Plain(Text(entry.machineName.value))
  {
    var names := {"action", "entity_type", "username", "entity_id", "details", "user_role", "machine_name"};
    map k | k in names && Carries(entry, k) :: Plain(Text(PropertyText(entry, k)))
  }

  /** The appended audit document: the entry's properties, each with the entry's
      value, plus a server `timestamp`. */
  function AuditDocument(entry: AuditEntry): (doc: Document)
    ensures doc.Keys == AuditFields(entry).Keys + {"timestamp"}
    ensures doc["timestamp"] == ServerTimestamp
    ensures forall k :: k in AuditFields(entry) ==> doc[k] == AuditFields(entry)[k]
    ensures doc["action"] == Plain(Text(entry.action)) && doc["username"] == Plain(Text(entry.username))
    ensures "entity_id" in doc <==> entry.entityId.Some?
  {
    AuditFields(entry)["timestamp" := ServerTimestamp]
  }

  /** A whole-document write (`setDoc`): creates or overwrites the document at `p`
      and leaves every other document as it was. */
  function Upsert(docs: map<Path, Document>, p: Path, d: Document): (r: map<Path, Document>)
    ensures r.Keys == docs.Keys + {p} && r[p] == d
    ensures forall q :: q in docs && q != p ==> r[q] == docs[q]
  {
    docs[p := d]
  }

  /** A delete (`deleteDoc`): removes the document at `p` if there is one and
      leaves every other document as it was. */
  function Remove(docs: map<Path, Document>, p: Path): (r: map<Path, Document>)
    ensures r.Keys == docs.Keys - {p}
    ensures forall q :: q in r ==> r[q] == docs[q]
  {
    docs - {p}
  }

  /** Writing the same path twice leaves only the second write. */
  lemma UpsertLastWins(docs: map<Path, Document>, p: Path, d1: Document, d2: Document)
    ensures Upsert(Upsert(docs, p, d1), p, d2) == Upsert(docs, p, d2)
  {
  }

  /** Syncing two snapshots of the same employee leaves one document, holding the
      second snapshot, and adds at most one document to the store. */
  lemma EmployeeResyncOverwrites(docs: map<Path, Document>, companyId: string, e1: Employee, e2: Employee)
    requires e1.epfNumber.Some? && e1.epfNumber == e2.epfNumber
    ensures var p := EmployeePath(companyId, e1.epfNumber.value);
      var twice := Upsert(Upsert(docs, p, EmployeeDocument(e1)), EmployeePath(companyId, e2.epfNumber.value), EmployeeDocument(e2));
      twice == Upsert(docs, p, EmployeeDocument(e2)) && |twice.Keys| <= |docs.Keys| + 1
  {
    var p := EmployeePath(companyId, e1.epfNumber.value);
    UpsertLastWins(docs, p, EmployeeDocument(e1), EmployeeDocument(e2));
    var once := Upsert(docs, p, EmployeeDocument(e2));
    assert once.Keys == docs.Keys + {p};
    assert |docs.Keys + {p}| <= |docs.Keys| + |{p}|;
  }

  /** Deleting an employee's document leaves every report document untouched. */
  lemma DeleteEmployeeKeepsReports(docs: map<Path, Document>, companyId: string, epfNumber: string, reportDate: string)
    ensures var r := Remove(docs, EmployeePath(companyId, epfNumber));
      var q := ReportPath(companyId, reportDate);
      (q in r <==> q in docs) && (q in r ==> r[q] == docs[q])
  {
    EmployeeAndReportPathsDiffer(companyId, epfNumber, reportDate);
  }

  /** Deleting a report's document leaves every employee document untouched. */
  lemma DeleteReportKeepsEmployees(docs: map<Path, Document>, companyId: string, reportDate: string, epfNumber: string)
    ensures var r := Remove(docs, ReportPath(companyId, reportDate));
      var q := EmployeePath(companyId, epfNumber);
      (q in r <==> q in docs) && (q in r ==> r[q] == docs[q])
  {
    EmployeeAndReportPathsDiffer(companyId, epfNumber, reportDate);
  }

  /** The outcome of one network call, chosen by the environment. */
  datatype Delivery = Delivered | Failed

  /** A call actually put on the network. */
  datatype Request = SetDoc(path: Path, doc: Document) | DeleteDoc(path: Path) | AddDoc(collection: Path, doc: Document)

  /** The remote document store as this process sees it, with the gate and the
      company id fixed for the life of the process. */
  class RemoteStore {
    const configured: bool
    const companyId: string
    /** Documents by path. */
    var docs: map<Path, Document>
    /** The audit collection, oldest first. */
    var auditLog: seq<Document>
    /** Every call attempted on the network, whatever became of it. */
    var sent: seq<Request>

    constructor (configured: bool, companyId: string, docs: map<Path, Document>, auditLog: seq<Document>)
      ensures this.configured == configured && this.companyId == companyId
      ensures this.docs == docs && this.auditLog == auditLog && sent == []
    {
      this.configured := configured;
      this.companyId := companyId;
      this.docs := docs;
      this.auditLog := auditLog;
      sent := [];
    }

    /** `syncEmployee`: upserts the employee's document at its EPF number. */
    method SyncEmployee(employee: Employee, net: Delivery)
      requires employee.epfNumber.Some?
      modifies this
      ensures var p := EmployeePath(companyId, employee.epfNumber.value);
        && sent == old(sent) + (if configured then [SetDoc(p, EmployeeDocument(employee))] else [])
        && docs == (if configured && net == Delivered then Upsert(old(docs), p, EmployeeDocument(employee)) else old(docs))
      ensures auditLog == old(auditLog)
    {
      if !configured {
        return;
      }
      var p := EmployeePath(companyId, employee.epfNumber.value);
      var doc := EmployeeDocument(employee);
      sent := sent + [SetDoc(p, doc)];
      if net == Delivered {
        docs := Upsert(docs, p, doc);
      }
      // A failed write is logged and dropped: nothing reaches the caller.
    }

    /** `deleteEmployee`: removes the document at the EPF number, if any. */
    method DeleteEmployee(epfNumber: string, net: Delivery)
      modifies this
      ensures var p := EmployeePath(companyId, epfNumber);
        && sent == old(sent) + (if configured then [DeleteDoc(p)] else [])
        && docs == (if configured && net == Delivered then Remove(old(docs), p) else old(docs))
      ensures auditLog == old(auditLog)
    {
      if !configured {
        return;
      }
      var p := EmployeePath(companyId, epfNumber);
      sent := sent + [DeleteDoc(p)];
      if net == Delivered {
        docs := Remove(docs, p);
      }
    }

    /** `syncCaderReport`: upserts the report's document at its date, with the given details. */
    method SyncCaderReport(report: SavedReport, details: seq<TrainingLine>, net: Delivery)
      modifies this
      ensures var p := ReportPath(companyId, report.report.reportDate);
        && sent == old(sent) + (if configured then [SetDoc(p, ReportDocument(report, details))] else [])
        && docs == (if configured && net == Delivered then Upsert(old(docs), p, ReportDocument(report, details)) else old(docs))
      ensures auditLog == old(auditLog)
    {
      if !configured {
        return;
      }
      var p := ReportPath(companyId, report.report.reportDate);
      var doc := ReportDocument(report, details);
      sent := sent + [SetDoc(p, doc)];
      if net == Delivered {
        docs := Upsert(docs, p, doc);
      }
    }

    /** `deleteCaderReport`: removes the document at the report date, if any. */
    method DeleteCaderReport(reportDate: string, net: Delivery)
      modifies this
      ensures var p := ReportPath(companyId, reportDate);
        && sent == old(sent) + (if configured then [DeleteDoc(p)] else [])
        && docs == (if configured && net == Delivered then Remove(old(docs), p) else old(docs))
      ensures auditLog == old(auditLog)
    {
      if !configured {
        return;
      }
      var p := ReportPath(companyId, reportDate);
      sent := sent + [DeleteDoc(p)];
      if net == Delivered {
        docs := Remove(docs, p);
      }
    }

    /** `syncAuditLog`: appends one document to the audit collection; earlier entries stay. */
    method SyncAuditLog(entry: AuditEntry, net: Delivery)
      modifies this
      ensures sent == old(sent) + (if configured then [AddDoc(AuditLogPath(companyId), AuditDocument(entry))] else [])
      ensures auditLog == (if configured && net == Delivered then old(auditLog) + [AuditDocument(entry)] else old(auditLog))
      ensures old(auditLog) <= auditLog && |auditLog| <= |old(auditLog)| + 1
      ensures docs == old(docs)
    {
      if !configured {
        return;
      }
      var doc := AuditDocument(entry);
      sent := sent + [AddDoc(AuditLogPath(companyId), doc)];
      if net == Delivered {
        auditLog := auditLog + [doc];
      }
    }
  }
}
