/** The page component (`DemandeRHForm`): the state cells of the request form
    and of the document form, and the handlers that update them. Network
    calls are outside the model: a submission ends in "blocked" or "send this
    body", and the server's answer comes back through `Complete...Request`. */
module RhForm {
  import opened Wrappers
  import opened JsText
  import opened EmployeeDirectory
  import opened EmployeeSearch
  import opened DemandeRequest
  import opened DocumentRequest

  /** What a submit click leads to: nothing is sent (with the alert the user
      sees, if any), or the request goes out with this body. */
  datatype Submission<P> = Blocked(alert: Option<string>) | Send(payload: P)

  /** How a request that was sent ends: the server accepted it, the server
      refused it (with the `error` text of its answer, if any), or no readable
      answer came back. */
  datatype RequestResult = Accepted | Rejected(serverError: Option<string>) | Unreachable

  const MsgConnexion := "Erreur de connexion au serveur"
  const MsgDemandeFailed := "Erreur lors de la soumission"
  const MsgDocumentFailed := "Erreur lors de la génération du document"

  /** The alert a finished request raises: none when accepted; the server's
      own message when it gave a non-empty one (`result.error || fallback`),
      the fallback otherwise; the connection message when nothing came back. */
  function ResultAlert(result: RequestResult, fallback: string): (alert: Option<string>)
    ensures alert.None? <==> result.Accepted?
    ensures result.Rejected? ==> alert.Some? && alert.value in {fallback, OrEmpty(result.serverError)}
    ensures result.Rejected? && result.serverError.Some? && result.serverError.value != "" ==>
      alert == result.serverError
    ensures result.Rejected? && OrEmpty(result.serverError) == "" ==> alert == Some(fallback)
    ensures result.Unreachable? ==> alert == Some(MsgConnexion)
  {
    match result
    case Accepted => None
    case Rejected(e) => if e.Some? && e.value != "" then e else Some(fallback)
    case Unreachable => Some(MsgConnexion)
  }

  /** The first rules of `validateDemandeForm`: employee, kind, title and
      departure date, each required. */
  method CheckGeneralFields(d: Draft) returns (newErrors: Errors)
    ensures newErrors == GeneralRules(d)
  {
    newErrors := map[];
    if d.employeId == "" { newErrors := newErrors[EmployeId := MsgEmploye]; }
    if d.typeDemande == "" { newErrors := newErrors[TypeDemande := MsgTypeDemande]; }
    if IsBlank(d.titre) { newErrors := newErrors[Titre := MsgTitre]; }
    if d.dateDepart == "" { newErrors := newErrors[DateDepart := MsgDateDepart]; }
  }

  /** The rules for leave and mission: the return date, required and not
      before the departure, then the kind of leave and its description. */
  method CheckLeaveFields(d: Draft, errors: Errors) returns (newErrors: Errors)
    ensures newErrors == LeaveRules(errors, d)
  {
    newErrors := errors;
    if d.typeDemande == CONGES || d.typeDemande == MISSION {
      if d.dateRetour == "" { newErrors := newErrors[DateRetour := MsgDateRetour]; }
      if d.dateDepart != "" && d.dateRetour != "" {
        if LexLess(d.dateRetour, d.dateDepart) {
          newErrors := newErrors[DateRetour := MsgDateOrder];
        }
      }
    }
    assert newErrors == WithVerdict(errors, d, DateRetour);
    ghost var afterDates := newErrors;

    if d.typeDemande == CONGES && d.typeConge == "" {
      newErrors := newErrors[TypeConge := MsgTypeConge];
    }
    assert newErrors == WithVerdict(afterDates, d, TypeConge);

    if d.typeDemande == CONGES && d.typeConge == AUTRE {
      if d.typeCongeAutre == "" || IsBlank(d.typeCongeAutre) {
        newErrors := newErrors[TypeCongeAutre := MsgTypeCongeAutre];
      }
    }
  }

  /** The rules for the times of an authorisation (both required, the return
      strictly after the departure) and of a mission (both required). */
  method CheckTimeFields(d: Draft, errors: Errors) returns (newErrors: Errors)
    ensures newErrors == TimeRules(errors, d)
  {
    newErrors := errors;
    if d.typeDemande == AUTORISATION {
      if d.heureDepart == "" { newErrors := newErrors[HeureDepart := MsgHeureDepart]; }
      if d.heureRetour == "" { newErrors := newErrors[HeureRetour := MsgHeureArrivee]; }
      if d.heureDepart != "" && d.heureRetour != "" {
        if !LexLess(d.heureDepart, d.heureRetour) {
          newErrors := newErrors[HeureRetour := MsgHeureOrder];
        }
      }
    }

    if d.typeDemande == MISSION {
      if d.heureDepart == "" { newErrors := newErrors[HeureDepart := MsgHeureSortie]; }
      if d.heureRetour == "" { newErrors := newErrors[HeureRetour := MsgHeureRetour]; }
    }
  }

  class DemandeRhForm {
    var employees: seq<Employee>
    var loading: bool
    var submitted: bool
    var errors: Errors
    const demandeSearch: SearchBox
    const documentSearch: SearchBox
    var demandeFormData: Draft
    var documentFormData: DocumentDraft
    var documentLoading: bool
    var documentSubmitted: bool

    /** Both pickers' suggestions are up to date with the roster, and each
        form's employee id is the id its picker has selected. */
    ghost predicate Valid()
      reads this, demandeSearch, documentSearch
    {
      && demandeSearch != documentSearch
      && demandeSearch.Valid(employees)
      && documentSearch.Valid(employees)
      && demandeFormData.employeId == demandeSearch.selectedEmployee.id
      && documentFormData.employeId == documentSearch.selectedEmployee.id
    }

    /** The state at mount: empty roster, empty drafts, no errors, nothing selected. */
    constructor ()
      ensures Valid()
      ensures employees == [] && errors == map[]
      ensures !loading && !submitted && !documentLoading && !documentSubmitted
      ensures demandeFormData == InitialDraft && documentFormData == InitialDocumentDraft
      ensures demandeSearch.searchTerm == "" && demandeSearch.selectedEmployee == NoSelection
      ensures documentSearch.searchTerm == "" && documentSearch.selectedEmployee == NoSelection
      ensures demandeSearch.filteredEmployees == [] && documentSearch.filteredEmployees == []
      ensures !demandeSearch.showDropdown && !documentSearch.showDropdown
      ensures fresh(demandeSearch) && fresh(documentSearch)
    {
      employees := [];
      loading := false;
      submitted := false;
      errors := map[];
      demandeSearch := new SearchBox([]);
      documentSearch := new SearchBox([]);
      demandeFormData := InitialDraft;
      documentFormData := InitialDocumentDraft;
      documentLoading := false;
      documentSubmitted := false;
    }

    /** `setEmployees(data)` once the roster has arrived, followed by the two
        filtering effects that depend on it. */
    method ReceiveEmployees(data: seq<Employee>)
      requires Valid()
      modifies this`employees, demandeSearch`filteredEmployees, documentSearch`filteredEmployees
      ensures Valid() && employees == data
    {
      employees := data;
      demandeSearch.Refilter(data);
      documentSearch.Refilter(data);
    }

    /* -------------------------------------------------------------------
       Request form
       ------------------------------------------------------------------- */

    /** `handleEmployeeSelect(employeeId)`: the draft takes the id and the
        employee error is cleared if it was set. The page reaches it only as
        the picker's `onEmployeeSelect`, that is through `SelectDemandeEmployee`
        and `DemandeSearchInput`, which pair it with the picker's own update
        and so keep `Valid()`; on its own it may leave the id and the
        picker's selection apart. */
    method HandleEmployeeSelect(employeeId: string)
      modifies this`demandeFormData, this`errors
      ensures demandeFormData == old(demandeFormData).(employeId := employeeId)
      ensures errors == ClearError(old(errors), EmployeId)
    {
      demandeFormData := demandeFormData.(employeId := employeeId);
      errors := ClearError(errors, EmployeId);
    }

    /** Picking `e` in the request form's picker: the picker records it and
        the draft takes its id. */
    method SelectDemandeEmployee(e: Employee)
      requires Valid()
      modifies demandeSearch, this`demandeFormData, this`errors
      ensures Valid()
      ensures demandeSearch.selectedEmployee == SelectionOf(e)
      ensures demandeSearch.searchTerm == Label(e) && !demandeSearch.showDropdown
      ensures e in employees ==> e in demandeSearch.filteredEmployees
      ensures demandeFormData == old(demandeFormData).(employeId := e.id)
      ensures errors == ClearError(old(errors), EmployeId)
    {
      demandeSearch.Select(e, employees);
      HandleEmployeeSelect(e.id);
    }

    /** Typing in the request form's picker; a blank text also clears the
        draft's employee id. */
    method DemandeSearchInput(value: string)
      requires Valid()
      modifies demandeSearch, this`demandeFormData, this`errors
      ensures Valid()
      ensures demandeSearch.searchTerm == value && demandeSearch.showDropdown == !IsBlank(value)
      ensures IsBlank(value) ==>
        && demandeSearch.selectedEmployee == NoSelection
        && demandeFormData == old(demandeFormData).(employeId := "")
        && errors == ClearError(old(errors), EmployeId)
      ensures !IsBlank(value) ==>
        && demandeSearch.selectedEmployee == old(demandeSearch.selectedEmployee)
        && demandeFormData == old(demandeFormData)
        && errors == old(errors)
    {
      var cleared := demandeSearch.InputChange(value, employees);
      if cleared {
        HandleEmployeeSelect("");
      }
    }

    /** `validateDemandeForm`: builds the error map rule by rule, replaces the
        form's errors with it, and answers whether it is empty. */
    method ValidateDemandeForm() returns (ok: bool)
      requires Valid()
      modifies this`errors
      ensures Valid()
      ensures errors == Validate(demandeFormData)
      ensures ok <==> errors == map[]
    {
      var d := demandeFormData;
      var newErrors := CheckGeneralFields(d);
      newErrors := CheckLeaveFields(d, newErrors);
      newErrors := CheckTimeFields(d, newErrors);
      RulesInTurnIsValidate(d);
      errors := newErrors;
      ok := |newErrors| == 0;
    }

    /** `handleDemandeSubmit` up to the network call. Without a selected
        employee only the employee error is set and nothing else happens;
        otherwise the errors become the validator's, and the request goes out
        exactly when the draft validates, with the normalised draft as body
        and the form marked as loading. */
    method HandleDemandeSubmit() returns (outcome: Submission<DemandePayload>)
      requires Valid() && !loading
      modifies this`errors, this`loading
      ensures Valid()
      ensures demandeSearch.selectedEmployee.id == "" ==>
        outcome == Blocked(None) && errors == old(errors)[EmployeId := MsgEmploye] && !loading
      ensures demandeSearch.selectedEmployee.id != "" ==> errors == Validate(demandeFormData)
      ensures outcome.Send? <==> Validate(demandeFormData) == map[]
      ensures outcome.Blocked? ==> outcome == Blocked(None) && !loading
      ensures outcome.Send? ==>
        outcome.payload == BuildPayload(demandeFormData, demandeFormData.employeId) && loading
    {
      if demandeSearch.selectedEmployee.id == "" {
        outcome := BlockWithoutEmployee();
      } else {
        outcome := SubmitPickedDemande();
      }
    }

    /** The part of `handleDemandeSubmit` that runs with no employee picked:
        only the employee message is set, and the draft cannot pass anyway. */
    method BlockWithoutEmployee() returns (outcome: Submission<DemandePayload>)
      requires Valid() && demandeSearch.selectedEmployee.id == ""
      modifies this`errors
      ensures Valid()
      ensures errors == old(errors)[EmployeId := MsgEmploye]
      ensures outcome == Blocked(None) && Validate(demandeFormData) != map[]
    {
      assert InError(demandeFormData, EmployeId);
      assert EmployeId in Validate(demandeFormData);
      errors := errors[EmployeId := MsgEmploye];
      outcome := Blocked(None);
    }

    /** The part of `handleDemandeSubmit` that runs once an employee is
        picked: validate, then send the normalised draft if it passed. */
    method SubmitPickedDemande() returns (outcome: Submission<DemandePayload>)
      requires Valid() && !loading && demandeSearch.selectedEmployee.id != ""
      modifies this`errors, this`loading
      ensures Valid()
      ensures errors == Validate(demandeFormData)
      ensures outcome.Send? <==> errors == map[]
      ensures outcome.Blocked? ==> outcome == Blocked(None) && !loading
      ensures outcome.Send? ==>
        outcome.payload == BuildPayload(demandeFormData, demandeFormData.employeId) && loading
    {
      var ok := ValidateDemandeForm();
      if !ok {
        return Blocked(None);
      }
      loading := true;
      outcome := Send(BuildPayload(demandeFormData, demandeSearch.selectedEmployee.id));
    }

    /** The end of `handleDemandeSubmit` once the server has answered: on
        acceptance the success view is shown; the alert, if any, is returned;
        `loading` is reset either way and the draft is kept. */
    method CompleteDemandeRequest(result: RequestResult) returns (alert: Option<string>)
      requires Valid() && loading
      modifies this`submitted, this`loading
      ensures Valid()
      ensures !loading
      ensures submitted == (old(submitted) || result.Accepted?)
      ensures alert == ResultAlert(result, MsgDemandeFailed)
    {
      if result.Accepted? {
        submitted := true;
      }
      alert := ResultAlert(result, MsgDemandeFailed);
      loading := false;
    }

    /** The delayed reset after a successful request: the success view goes,
        the draft is back to its initial value and the picker is emptied. */
    method ResetAfterDemandeSuccess()
      requires Valid()
      modifies this`submitted, this`demandeFormData, demandeSearch
      ensures Valid()
      ensures !submitted && demandeFormData == InitialDraft
      ensures demandeSearch.searchTerm == "" && demandeSearch.selectedEmployee == NoSelection
      ensures demandeSearch.filteredEmployees == []
      ensures demandeSearch.showDropdown == old(demandeSearch.showDropdown)
    {
      submitted := false;
      demandeFormData := InitialDraft;
      demandeSearch.Clear(employees);
    }

    /** `handleDemandeInputChange(field, value)`: the draft takes the value in
        that one field and that one field's error is cleared if it was set.
        The form routes every field but the employee id and the request type
        through it. */
    method HandleDemandeInputChange(f: Field, v: FieldValue)
      requires Valid() && FitsField(f, v) && f != EmployeId
      modifies this`demandeFormData, this`errors
      ensures Valid()
      ensures demandeFormData == SetField(old(demandeFormData), f, v)
      ensures errors == ClearError(old(errors), f)
    {
      var updated := SetField(demandeFormData, f, v);
      assert Get(updated, EmployeId) == Get(demandeFormData, EmployeId);
      demandeFormData := updated;
      errors := ClearError(errors, f);
    }

    /** `handleTypeDemandeChange(value)`: the draft switches type and drops the
        type-specific values; the type-specific errors are cleared. */
    method HandleTypeDemandeChange(value: string)
      requires Valid()
      modifies this`demandeFormData, this`errors
      ensures Valid()
      ensures demandeFormData == WithType(old(demandeFormData), value)
      ensures errors == ClearTypeErrors(old(errors))
    {
      demandeFormData := WithType(demandeFormData, value);
      errors := ClearTypeErrors(errors);
    }

    /* -------------------------------------------------------------------
       Document form
       ------------------------------------------------------------------- */

    /** `handleDocumentEmployeeSelect(employeeId)`: the document draft takes
        the id. As for the request form, the page reaches it only through the
        picker (`SelectDocumentEmployee`, `DocumentSearchInput`), which keeps
        `Valid()`. */
    method HandleDocumentEmployeeSelect(employeeId: string)
      modifies this`documentFormData
      ensures documentFormData == old(documentFormData).(employeId := employeeId)
    {
      documentFormData := documentFormData.(employeId := employeeId);
    }

    /** Picking `e` in the document form's picker. */
    method SelectDocumentEmployee(e: Employee)
      requires Valid()
      modifies documentSearch, this`documentFormData
      ensures Valid()
      ensures documentSearch.selectedEmployee == SelectionOf(e)
      ensures documentSearch.searchTerm == Label(e) && !documentSearch.showDropdown
      ensures e in employees ==> e in documentSearch.filteredEmployees
      ensures documentFormData == old(documentFormData).(employeId := e.id)
    {
      documentSearch.Select(e, employees);
      HandleDocumentEmployeeSelect(e.id);
    }

    /** Typing in the document form's picker; a blank text also clears the
        document draft's employee id. */
    method DocumentSearchInput(value: string)
      requires Valid()
      modifies documentSearch, this`documentFormData
      ensures Valid()
      ensures documentSearch.searchTerm == value && documentSearch.showDropdown == !IsBlank(value)
      ensures IsBlank(value) ==>
        documentSearch.selectedEmployee == NoSelection && documentFormData == old(documentFormData).(employeId := "")
      ensures !IsBlank(value) ==>
        documentSearch.selectedEmployee == old(documentSearch.selectedEmployee)
        && documentFormData == old(documentFormData)
    {
      var cleared := documentSearch.InputChange(value, employees);
      if cleared {
        HandleDocumentEmployeeSelect("");
      }
    }

    /** `handleDocumentInputChange('type_document', value)`: the certificate kind. */
    method HandleDocumentInputChange(value: string)
      requires Valid()
      modifies this`documentFormData
      ensures Valid()
      ensures documentFormData == old(documentFormData).(typeDocument := value)
    {
      documentFormData := documentFormData.(typeDocument := value);
    }

    /** `handleDocumentSubmit` up to the network call: without a selected
        employee the user is alerted and nothing is sent; otherwise the
        document draft goes out with the selected id and the form is loading. */
    method HandleDocumentSubmit() returns (outcome: Submission<DocumentDraft>)
      requires Valid() && !documentLoading
      modifies this`documentLoading
      ensures Valid()
      ensures outcome.Blocked? <==> documentSearch.selectedEmployee.id == ""
      ensures outcome.Blocked? ==> outcome.alert == Some(MsgSelectName) && !documentLoading
      ensures outcome.Send? ==>
        && outcome.payload == DocumentPayload(documentFormData, documentSearch.selectedEmployee.id)
        && outcome.payload == documentFormData
        && documentLoading
    {
      if documentSearch.selectedEmployee.id == "" {
        return Blocked(Some(MsgSelectName));
      }
      documentLoading := true;
      outcome := Send(DocumentPayload(documentFormData, documentSearch.selectedEmployee.id));
    }

    /** The end of `handleDocumentSubmit` once the server has answered. */
    method CompleteDocumentRequest(result: RequestResult) returns (alert: Option<string>)
      requires Valid() && documentLoading
      modifies this`documentSubmitted, this`documentLoading
      ensures Valid()
      ensures !documentLoading
      ensures documentSubmitted == (old(documentSubmitted) || result.Accepted?)
      ensures alert == ResultAlert(result, MsgDocumentFailed)
    {
      if result.Accepted? {
        documentSubmitted := true;
      }
      alert := ResultAlert(result, MsgDocumentFailed);
      documentLoading := false;
    }

    /** The delayed reset after a successful document request. */
    method ResetAfterDocumentSuccess()
      requires Valid()
      modifies this`documentSubmitted, this`documentFormData, documentSearch
      ensures Valid()
      ensures !documentSubmitted && documentFormData == InitialDocumentDraft
      ensures documentSearch.searchTerm == "" && documentSearch.selectedEmployee == NoSelection
      ensures documentSearch.filteredEmployees == []
      ensures documentSearch.showDropdown == old(documentSearch.showDropdown)
    {
      documentSubmitted := false;
      documentFormData := InitialDocumentDraft;
      documentSearch.Clear(employees);
    }
  }

  /** Mounting the page and receiving the roster: the page and both pickers
      are new, the roster is stored and the form is idle with an empty draft. */
  method MountAndReceive(roster: seq<Employee>) returns (page: DemandeRhForm)
    ensures fresh(page) && fresh(page.demandeSearch) && fresh(page.documentSearch)
    ensures page.Valid() && page.employees == roster
    ensures !page.loading && !page.submitted && page.demandeFormData == InitialDraft
  {
    page := new DemandeRhForm();
    page.ReceiveEmployees(roster);
  }

  /** A draft that passes the rules, submitted with an employee picked, then
      accepted by the server and followed by the delayed reset: the body goes
      out, no alert is raised, and the page ends idle with an empty draft and
      an empty picker. */
  method SubmitAcceptReset(page: DemandeRhForm) returns (outcome: Submission<DemandePayload>, alert: Option<string>)
    requires page.Valid() && !page.loading
    requires page.demandeSearch.selectedEmployee.id != "" && Validate(page.demandeFormData) == map[]
    modifies page, page.demandeSearch
    ensures outcome == Send(BuildPayload(old(page.demandeFormData), old(page.demandeFormData.employeId)))
    ensures alert.None?
    ensures page.Valid() && !page.loading && !page.submitted
    ensures page.demandeFormData == InitialDraft && page.demandeSearch.selectedEmployee == NoSelection
  {
    outcome := page.HandleDemandeSubmit();
    alert := page.CompleteDemandeRequest(Accepted);
    page.ResetAfterDemandeSuccess();
  }
}
