/** The employee picker (`EmployeeSearchInput`): a text box whose suggestions
    come from the roster. Its state is four cells that the form owns, one
    set per form; the picker's handlers update them. */
module EmployeeSearch {
  import opened JsText
  import opened EmployeeDirectory

  /** `selectedEmployee`: the chosen employee's id and names; all empty when
      nobody is chosen. */
  datatype Selection = Selection(id: string, name: string, nom: string, prenom: string)

  const NoSelection := Selection("", "", "", "")

  /** The selection recorded when `e` is picked: it keeps the id the
      submissions check, and its name is the label shown in the box without
      the job title. */
  function SelectionOf(e: Employee): (s: Selection)
    ensures s.id == e.id
    ensures Label(e) == s.name + " - " + e.poste
    ensures Contains(Label(e), s.name)
    ensures s != NoSelection
  {
    ContainsPrefix(FullName(e), " - " + e.poste);
    assert FullName(e) + " - " + e.poste == FullName(e) + (" - " + e.poste);
    assert |FullName(e)| >= 1;
    Selection(e.id, FullName(e), e.nom, e.prenom)
  }

  class SearchBox {
    var searchTerm: string
    var filteredEmployees: seq<Employee>
    var showDropdown: bool
    var selectedEmployee: Selection

    /** The filtering effect has run: the suggestions are the search of the
        roster for the current text. */
    ghost predicate Valid(roster: seq<Employee>)
      reads this
    {
      filteredEmployees == SearchEmployees(roster, searchTerm)
    }

    constructor (roster: seq<Employee>)
      ensures Valid(roster)
      ensures searchTerm == "" && filteredEmployees == [] && !showDropdown
      ensures selectedEmployee == NoSelection
    {
      searchTerm := "";
      filteredEmployees := [];
      showDropdown := false;
      selectedEmployee := NoSelection;
    }

    /** Re-running the filtering effect, after the text or the roster changed. */
    method Refilter(roster: seq<Employee>)
      modifies this`filteredEmployees
      ensures Valid(roster)
    {
      filteredEmployees := SearchEmployees(roster, searchTerm);
    }

    /** `handleEmployeeSelect(employee)`: records the selection, shows the
        employee's label in the box and closes the list; the new text lists
        the employee again when it is in the roster. */
    method Select(e: Employee, roster: seq<Employee>)
      modifies this
      ensures selectedEmployee == SelectionOf(e)
      ensures searchTerm == Label(e) && !showDropdown
      ensures Valid(roster)
      ensures e in roster ==> e in filteredEmployees
    {
      selectedEmployee := SelectionOf(e);
      searchTerm := Label(e);
      showDropdown := false;
      Refilter(roster);
      if e in roster {
        PickedEmployeeIsListed(roster, e);
      }
    }

    /** `handleInputChange`: the box takes the typed text; a blank text drops
        the selection and closes the list, any other text opens it and keeps
        the selection. `cleared` tells the form to clear its employee id. */
    method InputChange(value: string, roster: seq<Employee>) returns (cleared: bool)
      modifies this
      ensures searchTerm == value && Valid(roster)
      ensures cleared == IsBlank(value)
      ensures selectedEmployee == if cleared then NoSelection else old(selectedEmployee)
      ensures showDropdown == !cleared
    {
      searchTerm := value;
      cleared := IsBlank(value);
      if cleared {
        selectedEmployee := NoSelection;
      }
      if IsBlank(value) {
        showDropdown := false;
      } else {
        showDropdown := true;
      }
      Refilter(roster);
    }

    /** `handleFocus`: opens the list when the text is not blank and there are
        suggestions; otherwise leaves it as it was. */
    method Focus()
      modifies this`showDropdown
      ensures showDropdown == (old(showDropdown) || (!IsBlank(searchTerm) && |filteredEmployees| > 0))
    {
      if !IsBlank(searchTerm) && |filteredEmployees| > 0 {
        showDropdown := true;
      }
    }

    /** The delayed part of `handleBlur`, once its timer fires: the list closes. */
    method BlurElapsed()
      modifies this`showDropdown
      ensures !showDropdown
    {
      showDropdown := false;
    }

    /** The picker's part of the reset after a successful submission: empty
        text, no selection, no suggestions; the list's visibility is kept. */
    method Clear(roster: seq<Employee>)
      modifies this`searchTerm, this`selectedEmployee, this`filteredEmployees
      ensures searchTerm == "" && selectedEmployee == NoSelection && filteredEmployees == []
      ensures Valid(roster)
    {
      searchTerm := "";
      selectedEmployee := NoSelection;
      filteredEmployees := [];
    }
  }
}
