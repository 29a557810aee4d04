/** The roster of active employees and the search over it that feeds the
    employee picker of both forms. */
module EmployeeDirectory {
  import opened JsText

  /** One entry of the roster the back end returns: its id, last name (`nom`),
      first name (`prenom`) and job title (`poste`). */
  datatype Employee = Employee(id: string, nom: string, prenom: string, poste: string)

  /** `${nom} ${prenom}` */
  function FullName(e: Employee): string {
    e.nom + " " + e.prenom
  }

  /** `${nom} ${prenom} - ${poste}`: the text the picker shows once an
      employee is chosen. */
  function Label(e: Employee): string {
    e.nom + " " + e.prenom + " - " + e.poste
  }

  /** The filter's test for one employee, given the already lower-cased
      search text: one of the five lower-cased descriptions contains it. All
      five are pieces of the label, so the test amounts to a single test on
      the lower-cased label. */
  predicate Matches(e: Employee, search: string): (r: bool)
    ensures r <==> Contains(ToLower(Label(e)), search)
  {
    PiecesLeadToLabel(e, search);
    || Contains(ToLower(FullName(e)), search)
    || Contains(ToLower(Label(e)), search)
    || Contains(ToLower(e.nom), search)
    || Contains(ToLower(e.prenom), search)
    || Contains(ToLower(e.poste), search)
  }

  /** `a` is `b` with some entries left out and the rest kept in order. */
  ghost predicate IsSubsequence(a: seq<Employee>, b: seq<Employee>)
    decreases |b|
  {
    if a == [] then true
    else if b == [] then false
    else (a[0] == b[0] && IsSubsequence(a[1..], b[1..])) || IsSubsequence(a, b[1..])
  }

  /** `roster.filter(...)`: the employees that match, in roster order, each
      as many times as it occurs in the roster, and no other. */
  function FilterMatching(roster: seq<Employee>, search: string): (r: seq<Employee>)
    ensures IsSubsequence(r, roster)
    ensures forall e :: multiset(r)[e] == if Matches(e, search) then multiset(roster)[e] else 0
  {
    if roster == [] then []
    else
      var rest := FilterMatching(roster[1..], search);
      assert roster == [roster[0]] + roster[1..];
      if Matches(roster[0], search) then
        assert ([roster[0]] + rest)[1..] == rest;
        [roster[0]] + rest
      else rest
  }

  /** The list the picker offers for the typed text `term`: nothing while the
      text is blank, otherwise the matches for the lower-cased text (which is
      not trimmed). */
  function SearchEmployees(roster: seq<Employee>, term: string): (r: seq<Employee>)
    ensures IsBlank(term) ==> r == []
    ensures !IsBlank(term) ==> IsSubsequence(r, roster)
    ensures forall e :: e in r <==> !IsBlank(term) && e in roster && Matches(e, ToLower(term))
  {
    if IsBlank(term) then [] else FilterMatching(roster, ToLower(term))
  }

  /** Each of the four other descriptions is a piece of the label. */
  lemma LabelHoldsDescriptions(e: Employee)
    ensures Contains(Label(e), FullName(e))
    ensures Contains(Label(e), e.nom)
    ensures Contains(Label(e), e.prenom)
    ensures Contains(Label(e), e.poste)
  {
    // Label(e) is (FullName(e) + " - ") + poste, and FullName(e) is
    // (nom + " ") + prenom.
    var head := FullName(e) + " - ";
    ContainsSuffix(head, e.poste);
    ContainsPrefix(head, e.poste);
    ContainsPrefix(FullName(e), " - ");
    ContainsTransitive(Label(e), head, FullName(e));
    ContainsSuffix(e.nom + " ", e.prenom);
    ContainsTransitive(Label(e), FullName(e), e.prenom);
    ContainsPrefix(e.nom + " ", e.prenom);
    ContainsPrefix(e.nom, " ");
    ContainsTransitive(FullName(e), e.nom + " ", e.nom);
    ContainsTransitive(Label(e), FullName(e), e.nom);
  }

  /** Lower-cased, a piece of the label still lies within the lower-cased
      label, so whatever it contains the label contains. */
  lemma FoundInPieceIsFoundInLabel(e: Employee, piece: string, search: string)
    requires Contains(Label(e), piece) && Contains(ToLower(piece), search)
    ensures Contains(ToLower(Label(e)), search)
  {
    ContainsLower(Label(e), piece);
    ContainsTransitive(ToLower(Label(e)), ToLower(piece), search);
  }

  /** A search text found in any of the four other lower-cased descriptions
      is found in the lower-cased label. */
  lemma PiecesLeadToLabel(e: Employee, search: string)
    ensures Contains(ToLower(FullName(e)), search) ==> Contains(ToLower(Label(e)), search)
    ensures Contains(ToLower(e.nom), search) ==> Contains(ToLower(Label(e)), search)
    ensures Contains(ToLower(e.prenom), search) ==> Contains(ToLower(Label(e)), search)
    ensures Contains(ToLower(e.poste), search) ==> Contains(ToLower(Label(e)), search)
  {
    LabelHoldsDescriptions(e);
    if Contains(ToLower(FullName(e)), search) {
      FoundInPieceIsFoundInLabel(e, FullName(e), search);
    }
    if Contains(ToLower(e.nom), search) {
      FoundInPieceIsFoundInLabel(e, e.nom, search);
    }
    if Contains(ToLower(e.prenom), search) {
      FoundInPieceIsFoundInLabel(e, e.prenom, search);
    }
    if Contains(ToLower(e.poste), search) {
      FoundInPieceIsFoundInLabel(e, e.poste, search);
    }
  }

  /** Once an employee of the roster is picked, the picker's text is that
      employee's label, and the search for it lists the employee. */
  lemma PickedEmployeeIsListed(roster: seq<Employee>, e: Employee)
    requires e in roster
    ensures e in SearchEmployees(roster, Label(e))
  {
    var lab := Label(e);
    assert lab[|e.nom| + |e.prenom| + 2] == '-';
    assert OccursAt(ToLower(lab), ToLower(lab), 0);
  }
}
