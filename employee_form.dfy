/** The employee form: defaults, field edits, required-field validation,
    submission, and adding a new department, route or police area to the
    form's pick-lists. */
module EmployeeForm {
  import opened Wrappers
  import opened HrmTypes
  import opened JsStrings

  predicate IsRequired(f: EmployeeField) {
    f == EpfNumber || f == NameWithInitials || f == FullName
  }

  /** `emptyEmployee`: the three required columns empty, the status "active", every other column null. */
  function EmptyEmployee(): (e: Employee)
    ensures forall f :: IsRequired(f) ==> Get(e, f) == Some("")
    ensures Get(e, WorkingStatus) == Some("active")
    ensures forall f :: !IsRequired(f) && f != WorkingStatus ==> Get(e, f) == None
  {
    Employee(Some(""), Some(""), Some(""), None, None, None, None, None, None, None, None,
             Some("active"), None, None, None)
  }

  /** `value || null`: an empty string is stored as null; anything else as given. */
  function Normalize(value: Nullable): (r: Nullable)
    ensures r == None <==> (value == None || value == Some(""))
    ensures r != None ==> r == value
  {
    if value == Some("") then None else value
  }

  /** The form's record after `handleChange(field, value)`. */
  function ChangeField(data: Employee, field: EmployeeField, value: Nullable): (r: Employee)
    ensures Get(r, field) == Normalize(value)
    ensures forall g :: g != field ==> Get(r, g) == Get(data, g)
  {
    With(data, field, Normalize(value))
  }

  function RequiredMessage(f: EmployeeField): string {
    match f
    case EpfNumber => "EPF Number is required"
    case NameWithInitials => "Name with initials is required"
    case FullName => "Full name is required"
    case _ => ""
  }

  /** A required column counts as missing when it is null or blank after trimming. */
  predicate IsMissing(v: Nullable) {
    v == None || IsBlank(v.value)
  }

  /** The error map `validate` builds by successive assignments: one message for
      each required column that is missing, and nothing else. */
  method RequiredFieldErrors(data: Employee) returns (newErrors: map<EmployeeField, string>)
    ensures forall f :: f in newErrors <==> IsRequired(f) && IsMissing(Get(data, f))
    ensures forall f :: f in newErrors ==> newErrors[f] == RequiredMessage(f)
    ensures newErrors == map[] <==> forall f :: IsRequired(f) ==> !IsMissing(Get(data, f))
  {
    var missingEpf := IsMissing(data.epfNumber);
    var missingName := IsMissing(data.nameWithInitials);
    var missingFull := IsMissing(data.fullName);
    newErrors := map[];
    if missingEpf {
      newErrors := newErrors[EpfNumber := "EPF Number is required"];
    }
    if missingName {
      newErrors := newErrors[NameWithInitials := "Name with initials is required"];
    }
    if missingFull {
      newErrors := newErrors[FullName := "Full name is required"];
    }
    forall f ensures f in newErrors <==> IsRequired(f) && IsMissing(Get(data, f)) {
      match f
      case EpfNumber =>
      case NameWithInitials =>
      case FullName =>
      case _ => assert f !in newErrors;
    }
    if missingEpf {
      assert EpfNumber in newErrors;
    } else if missingName {
      assert NameWithInitials in newErrors;
    } else if missingFull {
      assert FullName in newErrors;
    } else {
      assert newErrors == map[];
    }
  }

  /** One `if (!x.trim()) newErrors.f = message` step, on a column known to be non-null. */
  function NoteIfBlank(errs: map<EmployeeField, string>, f: EmployeeField, text: string): (r: map<EmployeeField, string>)
    ensures forall g :: g != f ==> (g in r <==> g in errs) && (g in r ==> r[g] == errs[g])
    ensures f in r <==> f in errs || IsBlank(text)
    ensures IsBlank(text) ==> r[f] == RequiredMessage(f)
    ensures !IsBlank(text) && f in errs ==> r[f] == errs[f]
  {
    if IsBlank(text) then errs[f := RequiredMessage(f)] else errs
  }

  /** `validate` as written: `formData.epf_number.trim()` and the two like it throw a
      TypeError (`None`) when the column holds null; otherwise the error map. */
  function ValidateAsWritten(data: Employee): (r: Option<map<EmployeeField, string>>)
    ensures r == None <==> exists f :: IsRequired(f) && Get(data, f) == None
  {
    if data.epfNumber == None || data.nameWithInitials == None || data.fullName == None then
      assert IsRequired(EpfNumber) && IsRequired(NameWithInitials) && IsRequired(FullName);
      None
    else
      Some(NoteIfBlank(NoteIfBlank(NoteIfBlank(map[],
        EpfNumber, data.epfNumber.value),
        NameWithInitials, data.nameWithInitials.value),
        FullName, data.fullName.value))
  }

  /** Emptying a required input and submitting: `handleChange` stores null, and the
      `validate` as written then throws instead of reporting the field, while the
      corrected check reports it as missing. */
  lemma ClearedRequiredFieldCrashesValidate(f: EmployeeField)
    requires IsRequired(f)
    ensures var data := ChangeField(EmptyEmployee(), f, Some(""));
      ValidateAsWritten(data) == None && IsMissing(Get(data, f))
  {
  }

  /** On records without nulls in the required columns the corrected check agrees
      with `validate` as written: its only flaw is the null case. */
  lemma ValidateAgreesWithoutNulls(data: Employee) returns (errs: map<EmployeeField, string>)
    requires data.epfNumber != None && data.nameWithInitials != None && data.fullName != None
    ensures ValidateAsWritten(data) == Some(errs)
    ensures forall f :: f in errs <==> IsRequired(f) && IsMissing(Get(data, f))
    ensures forall f :: f in errs ==> errs[f] == RequiredMessage(f)
  {
    var e1 := NoteIfBlank(map[], EpfNumber, data.epfNumber.value);
    var e2 := NoteIfBlank(e1, NameWithInitials, data.nameWithInitials.value);
    errs := NoteIfBlank(e2, FullName, data.fullName.value);
    forall f ensures f in errs <==> IsRequired(f) && IsMissing(Get(data, f)) {
      if !IsRequired(f) {
        assert f !in e1 && f !in e2;
      }
    }
  }

  predicate NoDuplicates(xs: seq<string>) {
    forall i, j :: 0 <= i < j < |xs| ==> xs[i] != xs[j]
  }

  /** The pick-list after adding `x`: appended only when absent. */
  function AddIfAbsent(xs: seq<string>, x: string): (r: seq<string>)
    ensures x in r && xs <= r && |r| <= |xs| + 1
    ensures forall y :: y in r <==> y in xs || y == x
    ensures NoDuplicates(xs) ==> NoDuplicates(r)
    ensures x in xs ==> r == xs
    ensures x !in xs ==> r == xs + [x]
  {
    if x in xs then xs else xs + [x]
  }

  /** The state of one form. */
  class FormState {
    var formData: Employee
    var errors: map<EmployeeField, string>
    var newDepartment: string
    var newRoute: string
    var newPoliceArea: string
    var showNewDepartment: bool
    var showNewRoute: bool
    var showNewPoliceArea: bool
    var localDepartments: seq<string>
    var localRoutes: seq<string>
    var localPoliceAreas: seq<string>
    /** The records handed to `onSubmit`, in order. */
    var submitted: seq<Employee>

    /** Mounting the form: the record being edited, or the empty record, and the
        pick-lists taken from the props. */
    constructor (employee: Option<Employee>, departments: seq<string>, routes: seq<string>, policeAreas: seq<string>)
      ensures formData == employee.GetOr(EmptyEmployee()) && errors == map[]
      ensures newDepartment == newRoute == newPoliceArea == ""
      ensures !showNewDepartment && !showNewRoute && !showNewPoliceArea
      ensures localDepartments == departments && localRoutes == routes && localPoliceAreas == policeAreas
      ensures submitted == []
    {
      formData := employee.GetOr(EmptyEmployee());
      errors := map[];
      newDepartment, newRoute, newPoliceArea := "", "", "";
      showNewDepartment, showNewRoute, showNewPoliceArea := false, false, false;
      localDepartments, localRoutes, localPoliceAreas := departments, routes, policeAreas;
      submitted := [];
    }

    /** `handleChange`: stores the value (null for an empty string) in the named column
        only, and blanks that column's error message if it had one. */
    method HandleChange(field: EmployeeField, value: Nullable)
      modifies this`formData, this`errors
      ensures formData == ChangeField(old(formData), field, value)
      ensures errors == if field in old(errors) && old(errors)[field] != "" then old(errors)[field := ""] else old(errors)
    {
      formData := ChangeField(formData, field, value);
      if field in errors && errors[field] != "" {
        errors := errors[field := ""];
      }
    }

    /** `validate`: replaces the error map and passes exactly when no required column is missing. */
    method Validate() returns (ok: bool)
      modifies this`errors
      ensures forall f :: f in errors <==> IsRequired(f) && IsMissing(Get(formData, f))
      ensures forall f :: f in errors ==> errors[f] == RequiredMessage(f)
      ensures ok <==> forall f :: IsRequired(f) ==> !IsMissing(Get(formData, f))
    {
      var newErrors := RequiredFieldErrors(formData);
      errors := newErrors;
      ok := |newErrors| == 0;
    }

    /** `handleSubmit`: hands the record to `onSubmit` only when validation passes. */
    method HandleSubmit() returns (ok: bool)
      modifies this`errors, this`submitted
      ensures forall f :: f in errors <==> IsRequired(f) && IsMissing(Get(formData, f))
      ensures forall f :: f in errors ==> errors[f] == RequiredMessage(f)
      ensures ok <==> forall f :: IsRequired(f) ==> !IsMissing(Get(formData, f))
      ensures submitted == old(submitted) + (if ok then [formData] else [])
    {
      ok := Validate();
      if ok {
        submitted := submitted + [formData];
      }
    }

    /** `handleAddNewDepartment`: a blank entry is ignored; otherwise the trimmed text is
        appended to the list if absent, selected in the form, and the entry is closed. */
    method AddNewDepartment()
      modifies this`formData, this`errors, this`localDepartments, this`newDepartment, this`showNewDepartment
      ensures IsBlank(old(newDepartment)) ==>
        formData == old(formData) && errors == old(errors) && localDepartments == old(localDepartments)
        && newDepartment == old(newDepartment) && showNewDepartment == old(showNewDepartment)
      ensures !IsBlank(old(newDepartment)) ==>
        var t := Trim(old(newDepartment));
        && localDepartments == AddIfAbsent(old(localDepartments), t)
        && formData == With(old(formData), Department, Some(t))
        && errors == (if Department in old(errors) && old(errors)[Department] != "" then old(errors)[Department := ""] else old(errors))
        && newDepartment == "" && !showNewDepartment
    {
      if !IsBlank(newDepartment) {
        var trimmed := Trim(newDepartment);
        localDepartments := AddIfAbsent(localDepartments, trimmed);
        HandleChange(Department, Some(trimmed));
        newDepartment := "";
        showNewDepartment := false;
      }
    }

    /** `handleAddNewRoute`, the same for the transport route. */
    method AddNewRoute()
      modifies this`formData, this`errors, this`localRoutes, this`newRoute, this`showNewRoute
      ensures IsBlank(old(newRoute)) ==>
        formData == old(formData) && errors == old(errors) && localRoutes == old(localRoutes)
        && newRoute == old(newRoute) && showNewRoute == old(showNewRoute)
      ensures !IsBlank(old(newRoute)) ==>
        var t := Trim(old(newRoute));
        && localRoutes == AddIfAbsent(old(localRoutes), t)
        && formData == With(old(formData), TransportRoute, Some(t))
        && errors == (if TransportRoute in old(errors) && old(errors)[TransportRoute] != "" then old(errors)[TransportRoute := ""] else old(errors))
        && newRoute == "" && !showNewRoute
    {
      if !IsBlank(newRoute) {
        var trimmed := Trim(newRoute);
        localRoutes := AddIfAbsent(localRoutes, trimmed);
        HandleChange(TransportRoute, Some(trimmed));
        newRoute := "";
        showNewRoute := false;
      }
    }

    /** `handleAddNewPoliceArea`, the same for the police area. */
    method AddNewPoliceArea()
      modifies this`formData, this`errors, this`localPoliceAreas, this`newPoliceArea, this`showNewPoliceArea
      ensures IsBlank(old(newPoliceArea)) ==>
        formData == old(formData) && errors == old(errors) && localPoliceAreas == old(localPoliceAreas)
        && newPoliceArea == old(newPoliceArea) && showNewPoliceArea == old(showNewPoliceArea)
      ensures !IsBlank(old(newPoliceArea)) ==>
        var t := Trim(old(newPoliceArea));
        && localPoliceAreas == AddIfAbsent(old(localPoliceAreas), t)
        && formData == With(old(formData), PoliceArea, Some(t))
        && errors == (if PoliceArea in old(errors) && old(errors)[PoliceArea] != "" then old(errors)[PoliceArea := ""] else old(errors))
        && newPoliceArea == "" && !showNewPoliceArea
    {
      if !IsBlank(newPoliceArea) {
        var trimmed := Trim(newPoliceArea);
        localPoliceAreas := AddIfAbsent(localPoliceAreas, trimmed);
        HandleChange(PoliceArea, Some(trimmed));
        newPoliceArea := "";
        showNewPoliceArea := false;
      }
    }
  }

  /** What a non-blank entry adds to a pick-list is non-empty and carries no
      surrounding whitespace, so adding the same text again changes nothing. */
  lemma AddedOptionIsTrimmed(xs: seq<string>, input: string)
    requires !IsBlank(input)
    ensures var t := Trim(input);
      && t != "" && !IsJsWhitespace(t[0]) && !IsJsWhitespace(t[|t| - 1])
      && AddIfAbsent(AddIfAbsent(xs, t), Trim(t)) == AddIfAbsent(xs, t)
  {
    TrimShape(input);
    TrimIdempotent(input);
  }
}
