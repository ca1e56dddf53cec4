/** The records the core exchanges: employees, daily cader reports with their
    training-line sub-records, and the field maps written to the remote
    document store. */
module HrmTypes {
  import opened Wrappers

  /** A nullable text column; `None` is `null`. */
  type Nullable = Option<string>

  /** The fifteen columns of an employee record, in the order the form declares them. */
  datatype EmployeeField =
    | EpfNumber | NameWithInitials | FullName | Dob | PoliceArea | TransportRoute
    | Mobile1 | Mobile2 | Address | DateOfJoin | DateOfResign | WorkingStatus
    | MaritalStatus | JobRole | Department

  datatype Employee = Employee(
    epfNumber: Nullable,
    nameWithInitials: Nullable,
    fullName: Nullable,
    dob: Nullable,
    policeArea: Nullable,
    transportRoute: Nullable,
    mobile1: Nullable,
    mobile2: Nullable,
    address: Nullable,
    dateOfJoin: Nullable,
    dateOfResign: Nullable,
    workingStatus: Nullable,
    maritalStatus: Nullable,
    jobRole: Nullable,
    department: Nullable)

  /** Reads one column, as `employee[field]` does. */
  function Get(e: Employee, f: EmployeeField): Nullable {
    match f
    case EpfNumber => e.epfNumber
    case NameWithInitials => e.nameWithInitials
    case FullName => e.fullName
    case Dob => e.dob
    case PoliceArea => e.policeArea
    case TransportRoute => e.transportRoute
    case Mobile1 => e.mobile1
    case Mobile2 => e.mobile2
    case Address => e.address
    case DateOfJoin => e.dateOfJoin
    case DateOfResign => e.dateOfResign
    case WorkingStatus => e.workingStatus
    case MaritalStatus => e.maritalStatus
    case JobRole => e.jobRole
    case Department => e.department
  }

  /** `{ ...e, [f]: v }`: the record with one column replaced and every other column kept. */
  function With(e: Employee, f: EmployeeField, v: Nullable): (r: Employee)
    ensures Get(r, f) == v
    ensures forall g :: g != f ==> Get(r, g) == Get(e, g)
  {
    match f
    case EpfNumber => e.(epfNumber := v)
    case NameWithInitials => e.(nameWithInitials := v)
    case FullName => e.(fullName := v)
    case Dob => e.(dob := v)
    case PoliceArea => e.(policeArea := v)
    case TransportRoute => e.(transportRoute := v)
    case Mobile1 => e.(mobile1 := v)
    case Mobile2 => e.(mobile2 := v)
    case Address => e.(address := v)
    case DateOfJoin => e.(dateOfJoin := v)
    case DateOfResign => e.(dateOfResign := v)
    case WorkingStatus => e.(workingStatus := v)
    case MaritalStatus => e.(maritalStatus := v)
    case JobRole => e.(jobRole := v)
    case Department => e.(department := v)
  }

  /** The property name of a column, as it appears in stored and mirrored records. */
  function FieldName(f: EmployeeField): string {
    match f
    case EpfNumber => "epf_number"
    case NameWithInitials => "name_with_initials"
    case FullName => "full_name"
    case Dob => "dob"
    case PoliceArea => "police_area"
    case TransportRoute => "transport_route"
    case Mobile1 => "mobile_1"
    case Mobile2 => "mobile_2"
    case Address => "address"
    case DateOfJoin => "date_of_join"
    case DateOfResign => "date_of_resign"
    case WorkingStatus => "working_status"
    case MaritalStatus => "marital_status"
    case JobRole => "job_role"
    case Department => "department"
  }

  /** A JavaScript string-or-number, the value type of a training-line column. */
  datatype Scalar = Text(text: string) | Number(number: real)

  datatype LineField = LineName | LineActualCader | LinePresentCader | LineAbsentCount | LineAbsentPercent

  /** One training-line sub-record of a daily report. */
  datatype TrainingLine = TrainingLine(
    lineName: Scalar,
    actualCader: Scalar,
    presentCader: Scalar,
    absentCount: Scalar,
    absentPercent: Scalar)

  function LineGet(d: TrainingLine, f: LineField): Scalar {
    match f
    case LineName => d.lineName
    case LineActualCader => d.actualCader
    case LinePresentCader => d.presentCader
    case LineAbsentCount => d.absentCount
    case LineAbsentPercent => d.absentPercent
  }

  /** `{ ...d, [f]: v }` on a training line. */
  function LineWith(d: TrainingLine, f: LineField, v: Scalar): (r: TrainingLine)
    ensures LineGet(r, f) == v
    ensures forall g :: g != f ==> LineGet(r, g) == LineGet(d, g)
  {
    match f
    case LineName => d.(lineName := v)
    case LineActualCader => d.(actualCader := v)
    case LinePresentCader => d.(presentCader := v)
    case LineAbsentCount => d.(absentCount := v)
    case LineAbsentPercent => d.(absentPercent := v)
  }

  /** The contents of a daily cader report as the form edits and saves it. */
  datatype CaderReport = CaderReport(
    reportDate: string,
    budgetCader: real,
    actualCader: real,
    presentCader: real,
    absentCount: real,
    absentPercent: real,
    trainingLineCader: real,
    trainingLinePresent: real,
    trainingLineAbsentCount: real,
    trainingLineAbsentPercent: real,
    ltoUpToDate: real,
    trainingLineDetails: seq<TrainingLine>)

  /** A report as the local store returns it: the saved contents and the row id it assigned. */
  datatype SavedReport = SavedReport(id: int, report: CaderReport)

  /** A value inside a remote document. `ServerTimestamp` is the opaque
      sentinel the store replaces by its own clock when the write lands. */
  datatype Value = Null | Plain(scalar: Scalar) | Lines(lines: seq<TrainingLine>) | ServerTimestamp

  /** A remote document: property name to value. */
  type Document = map<string, Value>

  function NullableValue(v: Nullable): Value {
    match v
    case None => Null
    case Some(s) => Plain(Text(s))
  }

  /** The properties that spreading an employee record (`...employee`) contributes. */
  function EmployeeFields(e: Employee): (m: Document)
    ensures forall f :: FieldName(f) in m && m[FieldName(f)] == NullableValue(Get(e, f))
    ensures "_synced_at" !in m
  {
    map[
      "epf_number" := NullableValue(e.epfNumber),
      "name_with_initials" := NullableValue(e.nameWithInitials),
      "full_name" := NullableValue(e.fullName),
      "dob" := NullableValue(e.dob),
      "police_area" := NullableValue(e.policeArea),
      "transport_route" := NullableValue(e.transportRoute),
      "mobile_1" := NullableValue(e.mobile1),
      "mobile_2" := NullableValue(e.mobile2),
      "address" := NullableValue(e.address),
      "date_of_join" := NullableValue(e.dateOfJoin),
      "date_of_resign" := NullableValue(e.dateOfResign),
      "working_status" := NullableValue(e.workingStatus),
      "marital_status" := NullableValue(e.maritalStatus),
      "job_role" := NullableValue(e.jobRole),
      "department" := NullableValue(e.department)
    ]
  }

  function Num(x: real): Value { Plain(Number(x)) }

  /** The properties that spreading a stored report (`...report`) contributes. */
  function ReportFields(s: SavedReport): Document {
    var r := s.report;
    map[
      "id" := Num(s.id as real),
      "report_date" := Plain(Text(r.reportDate)),
      "budget_cader" := Num(r.budgetCader),
      "actual_cader" := Num(r.actualCader),
      "present_cader" := Num(r.presentCader),
      "absent_count" := Num(r.absentCount),
      "absent_percent" := Num(r.absentPercent),
      "training_line_cader" := Num(r.trainingLineCader),
      "training_line_present" := Num(r.trainingLinePresent),
      "training_line_absent_count" := Num(r.trainingLineAbsentCount),
      "training_line_absent_percent" := Num(r.trainingLineAbsentPercent),
      "lto_up_to_date" := Num(r.ltoUpToDate),
      "training_line_details" := Lines(r.trainingLineDetails)
    ]
  }
}
