/** The HR request ("demande") draft: its fields, the validation rules keyed
    to the request type, the payload sent to the back end, and the pure
    state updates the form's handlers apply to the draft and to the error map. */
module DemandeRequest {
  import opened Wrappers
  import opened JsText

  /** The request types the type selector offers. */
  const AUTORISATION := "autorisation"
  const CONGES := "conges"
  const MISSION := "mission"

  /** The leave kind whose description must be typed in. */
  const AUTRE := "autre"

  /** The validation messages, one per rule. */
  const MsgEmploye := "Veuillez sélectionner un employé"
  const MsgTypeDemande := "Veuillez sélectionner un type de demande"
  const MsgTitre := "Veuillez saisir le motif de la demande"
  const MsgDateDepart := "Veuillez saisir la date de départ"
  const MsgDateRetour := "Veuillez saisir la date de retour"
  const MsgDateOrder := "La date de retour doit être après la date de départ"
  const MsgTypeConge := "Veuillez sélectionner un type de congé"
  const MsgTypeCongeAutre := "Veuillez préciser le type de congé"
  const MsgHeureDepart := "Veuillez saisir l'heure de départ"
  const MsgHeureArrivee := "Veuillez saisir l'heure d'arrivée"
  const MsgHeureOrder := "L'heure d'arrivée doit être après l'heure de départ"
  const MsgHeureSortie := "Veuillez saisir l'heure de sortie"
  const MsgHeureRetour := "Veuillez saisir l'heure de retour"

  /** The form's draft (`demandeFormData`). Dates are `YYYY-MM-DD` texts and
      times `HH:MM` texts, as the date and time inputs produce them; the
      empty text means "not filled in". */
  datatype Draft = Draft(
    employeId: string,
    typeDemande: string,
    titre: string,
    dateDepart: string,
    dateRetour: string,
    heureDepart: string,
    heureRetour: string,
    demiJournee: bool,
    typeConge: string,
    typeCongeAutre: string,
    fraisDeplacement: string)

  /** The draft when the form is mounted and after a successful submission. */
  const InitialDraft := Draft("", "", "", "", "", "", "", false, "", "", "")

  /** The draft's keys, which are also the keys of the error map. */
  datatype Field =
    | EmployeId | TypeDemande | Titre | DateDepart | DateRetour | HeureDepart
    | HeureRetour | DemiJournee | TypeConge | TypeCongeAutre | FraisDeplacement

  const AllFields: set<Field> := {EmployeId, TypeDemande, Titre, DateDepart, DateRetour,
    HeureDepart, HeureRetour, DemiJournee, TypeConge, TypeCongeAutre, FraisDeplacement}

  /** The fields that only some request types use. */
  const TypeSpecificFields: set<Field> := {DateRetour, HeureDepart, HeureRetour,
    DemiJournee, TypeConge, TypeCongeAutre, FraisDeplacement}

  /** The fields whose errors a change of request type clears. */
  const TypeErrorFields: set<Field> := {DateRetour, HeureDepart, HeureRetour, TypeConge, TypeCongeAutre}

  /** A field's value: text, or the half-day checkbox. */
  datatype FieldValue = Text(text: string) | Flag(flag: bool)

  /** `demandeFormData[field]` */
  function Get(d: Draft, f: Field): FieldValue {
    match f
    case EmployeId => Text(d.employeId)
    case TypeDemande => Text(d.typeDemande)
    case Titre => Text(d.titre)
    case DateDepart => Text(d.dateDepart)
    case DateRetour => Text(d.dateRetour)
    case HeureDepart => Text(d.heureDepart)
    case HeureRetour => Text(d.heureRetour)
    case DemiJournee => Flag(d.demiJournee)
    case TypeConge => Text(d.typeConge)
    case TypeCongeAutre => Text(d.typeCongeAutre)
    case FraisDeplacement => Text(d.fraisDeplacement)
  }

  /** The inputs bind the checkbox to `demi_journee` and text to every other field. */
  predicate FitsField(f: Field, v: FieldValue) {
    if f == DemiJournee then v.Flag? else v.Text?
  }

  /** `{ ...prev, [field]: value }`: the named field takes the value and every
      other field keeps its own. */
  function SetField(d: Draft, f: Field, v: FieldValue): (r: Draft)
    requires FitsField(f, v)
    ensures Get(r, f) == v
    ensures forall g :: g != f ==> Get(r, g) == Get(d, g)
  {
    match f
    case EmployeId => d.(employeId := v.text)
    case TypeDemande => d.(typeDemande := v.text)
    case Titre => d.(titre := v.text)
    case DateDepart => d.(dateDepart := v.text)
    case DateRetour => d.(dateRetour := v.text)
    case HeureDepart => d.(heureDepart := v.text)
    case HeureRetour => d.(heureRetour := v.text)
    case DemiJournee => d.(demiJournee := v.flag)
    case TypeConge => d.(typeConge := v.text)
    case TypeCongeAutre => d.(typeCongeAutre := v.text)
    case FraisDeplacement => d.(fraisDeplacement := v.text)
  }

  /** The error map: field to message. A cleared error stays as an empty message. */
  type Errors = map<Field, string>

  /** `errors[field]` is truthy: the key is there with a non-empty message. */
  predicate HasError(errors: Errors, f: Field) {
    f in errors && errors[f] != ""
  }

  /** `if (errors[field]) setErrors(prev => ({ ...prev, [field]: '' }))`: the
      field's error is gone, no key is added or removed, every other message
      is kept, and a map without that error is left exactly as it was. */
  function ClearError(errors: Errors, f: Field): (r: Errors)
    ensures !HasError(r, f)
    ensures r.Keys == errors.Keys
    ensures forall g | g in errors && g != f :: r[g] == errors[g]
    ensures !HasError(errors, f) ==> r == errors
  {
    if HasError(errors, f) then errors[f := ""] else errors
  }

  /** The draft after the request type is changed to `v`: the type is `v`,
      the employee, reason and departure date are kept, and every
      type-specific field is back at its initial value. */
  function WithType(d: Draft, v: string): (r: Draft)
    ensures r.typeDemande == v
    ensures r.employeId == d.employeId && r.titre == d.titre && r.dateDepart == d.dateDepart
    ensures forall f | f in TypeSpecificFields :: Get(r, f) == Get(InitialDraft, f)
  {
    d.(typeDemande := v, dateRetour := "", heureDepart := "", heureRetour := "",
       demiJournee := false, typeConge := "", typeCongeAutre := "", fraisDeplacement := "")
  }

  /** The error map after the request type is changed: the five type-specific
      errors are present and empty, and every other entry is untouched. */
  function ClearTypeErrors(errors: Errors): (r: Errors)
    ensures r.Keys == errors.Keys + TypeErrorFields
    ensures forall f | f in TypeErrorFields :: r[f] == ""
    ensures forall f | f in errors && f !in TypeErrorFields :: r[f] == errors[f]
  {
    errors[DateRetour := ""][HeureDepart := ""][HeureRetour := ""][TypeConge := ""][TypeCongeAutre := ""]
  }

  /* ---------------------------------------------------------------------
     Validation
     --------------------------------------------------------------------- */

  /** The fields a draft must fill in, as a table keyed by request type. */
  function RequiredFields(d: Draft): set<Field> {
    {EmployeId, TypeDemande, Titre, DateDepart}
    + (if d.typeDemande == CONGES || d.typeDemande == MISSION then {DateRetour} else {})
    + (if d.typeDemande == AUTORISATION || d.typeDemande == MISSION then {HeureDepart, HeureRetour} else {})
    + (if d.typeDemande == CONGES then {TypeConge} else {})
    + (if d.typeDemande == CONGES && d.typeConge == AUTRE then {TypeCongeAutre} else {})
  }

  /** A field counts as filled in: the reason and the leave description must
      not be blank once trimmed, any other text must not be empty. */
  predicate Present(d: Draft, f: Field) {
    match Get(d, f)
    case Flag(_) => true
    case Text(s) => if f == Titre || f == TypeCongeAutre then !IsBlank(s) else s != ""
  }

  /** For leave and mission, a return date strictly before the departure date. */
  predicate DatesOutOfOrder(d: Draft) {
    && (d.typeDemande == CONGES || d.typeDemande == MISSION)
    && d.dateDepart != "" && d.dateRetour != ""
    && LexLess(d.dateRetour, d.dateDepart)
  }

  /** For an authorization, a return time not strictly after the departure time
      (JavaScript's `heure_retour <= heure_depart`). */
  predicate TimesOutOfOrder(d: Draft) {
    && d.typeDemande == AUTORISATION
    && d.heureDepart != "" && d.heureRetour != ""
    && !LexLess(d.heureDepart, d.heureRetour)
  }

  /** A draft the form lets through: every required field filled in and both
      orderings respected. */
  predicate Acceptable(d: Draft) {
    && (forall f | f in RequiredFields(d) :: Present(d, f))
    && !DatesOutOfOrder(d)
    && !TimesOutOfOrder(d)
  }

  /** The message the validator leaves for one field, if any. */
  function FieldError(d: Draft, f: Field): Option<string> {
    var leaveOrMission := d.typeDemande == CONGES || d.typeDemande == MISSION;
    match f
    case EmployeId => if d.employeId == "" then Some(MsgEmploye) else None
    case TypeDemande => if d.typeDemande == "" then Some(MsgTypeDemande) else None
    case Titre => if IsBlank(d.titre) then Some(MsgTitre) else None
    case DateDepart => if d.dateDepart == "" then Some(MsgDateDepart) else None
    case DateRetour =>
      if !leaveOrMission then None
      else if d.dateRetour == "" then Some(MsgDateRetour)
      else if d.dateDepart != "" && LexLess(d.dateRetour, d.dateDepart) then Some(MsgDateOrder)
      else None
    case HeureDepart =>
      if d.heureDepart != "" then None
      else if d.typeDemande == AUTORISATION then Some(MsgHeureDepart)
      else if d.typeDemande == MISSION then Some(MsgHeureSortie)
      else None
    case HeureRetour =>
      if d.typeDemande == AUTORISATION then
        if d.heureRetour == "" then Some(MsgHeureArrivee)
        else if d.heureDepart != "" && !LexLess(d.heureDepart, d.heureRetour) then Some(MsgHeureOrder)
        else None
      else if d.typeDemande == MISSION && d.heureRetour == "" then Some(MsgHeureRetour)
      else None
    case TypeConge => if d.typeDemande == CONGES && d.typeConge == "" then Some(MsgTypeConge) else None
    case TypeCongeAutre =>
      if d.typeDemande == CONGES && d.typeConge == AUTRE && IsBlank(d.typeCongeAutre)
      then Some(MsgTypeCongeAutre) else None
    case DemiJournee => None
    case FraisDeplacement => None
  }

  /** The rules' verdict on one field: it is required and not filled in, or it
      is the later half of an ordering that is violated. */
  predicate InError(d: Draft, f: Field) {
    || (f in RequiredFields(d) && !Present(d, f))
    || (f == DateRetour && DatesOutOfOrder(d))
    || (f == HeureRetour && TimesOutOfOrder(d))
  }

  /** The per-field messages agree with the table of rules, and are never empty. */
  lemma FieldErrorMeaning(d: Draft, f: Field)
    ensures f in AllFields
    ensures FieldError(d, f).Some? <==> InError(d, f)
    ensures FieldError(d, f).Some? ==> FieldError(d, f).value != ""
  {
    match f
    case EmployeId =>
    case TypeDemande =>
    case Titre =>
    case DateDepart =>
    case DateRetour =>
    case HeureDepart =>
    case HeureRetour =>
    case DemiJournee =>
    case TypeConge =>
    case TypeCongeAutre =>
    case FraisDeplacement =>
  }

  lemma AllFieldErrorsMeaning(d: Draft)
    ensures forall f :: f in AllFields
    ensures forall f :: FieldError(d, f).Some? <==> InError(d, f)
    ensures forall f | FieldError(d, f).Some? :: FieldError(d, f).value != ""
  {
    forall f
      ensures f in AllFields
      ensures FieldError(d, f).Some? <==> InError(d, f)
      ensures FieldError(d, f).Some? ==> FieldError(d, f).value != ""
    {
      FieldErrorMeaning(d, f);
    }
  }

  /** The error map `validateDemandeForm` builds: a field has an error exactly
      when the rules reject it, and every message is non-empty. */
  function Validate(d: Draft): (r: Errors)
    ensures forall f :: f in r <==> InError(d, f)
    ensures forall f | f in r :: r[f] != ""
  {
    AllFieldErrorsMeaning(d);
    map f | f in AllFields && FieldError(d, f).Some? :: FieldError(d, f).value
  }

  /** The entry of the error map for one field is that field's message. */
  lemma ValidateAt(d: Draft, f: Field)
    ensures f in Validate(d) <==> FieldError(d, f).Some?
    ensures f in Validate(d) ==> Validate(d)[f] == FieldError(d, f).value
  {
    FieldErrorMeaning(d, f);
  }

  /** `m` holds the validator's message for each field of `fs` that has one,
      and nothing else: what the error map looks like once the rules for the
      fields of `fs` have run. */
  ghost predicate AgreesOn(m: Errors, d: Draft, fs: set<Field>) {
    && (forall f | f in m :: f in fs)
    && (forall f | f in fs :: (f in m <==> FieldError(d, f).Some?))
    && (forall f | f in fs && f in m :: m[f] == FieldError(d, f).value)
  }

  /** `m` after the rule for field `f` has run: that field's message added
      when the field is in error. */
  function WithVerdict(m: Errors, d: Draft, f: Field): Errors {
    if FieldError(d, f).Some? then m[f := FieldError(d, f).value] else m
  }

  /** Running the rule for one more field extends the agreement to it. */
  lemma AgreesOnWithVerdict(m: Errors, d: Draft, fs: set<Field>, f: Field)
    requires AgreesOn(m, d, fs) && f !in fs
    ensures AgreesOn(WithVerdict(m, d, f), d, fs + {f})
  {
  }

  /** The rules for the fields every request has, run one after another
      from no errors. */
  function GeneralRules(d: Draft): Errors {
    var m1 := WithVerdict(map[], d, EmployeId);
    var m2 := WithVerdict(m1, d, TypeDemande);
    var m3 := WithVerdict(m2, d, Titre);
    WithVerdict(m3, d, DateDepart)
  }

  /** Then the rules for the return date and the kind of leave. */
  function LeaveRules(m: Errors, d: Draft): Errors {
    WithVerdict(WithVerdict(WithVerdict(m, d, DateRetour), d, TypeConge), d, TypeCongeAutre)
  }

  /** Then the rules for the two times. */
  function TimeRules(m: Errors, d: Draft): Errors {
    WithVerdict(WithVerdict(m, d, HeureDepart), d, HeureRetour)
  }

  /** All the rules in the order the form runs them; the two fields without a
      rule are left alone. */
  function RulesInTurn(d: Draft): Errors {
    TimeRules(LeaveRules(GeneralRules(d), d), d)
  }

  /** The fields that have a rule: all but the half-day flag and the travel
      expense. */
  const RuledFields: set<Field> := AllFields - {DemiJournee, FraisDeplacement}

  /** Once the rules for every field that has one have run, the map is the
      validator's: the two other fields never get a message. */
  lemma AgreesOnAllFields(m: Errors, d: Draft)
    requires AgreesOn(m, d, RuledFields)
    ensures m == Validate(d)
  {
    forall f
      ensures f in m <==> f in Validate(d)
      ensures f in m ==> m[f] == Validate(d)[f]
    {
      ValidateAt(d, f);
      FieldErrorMeaning(d, f);
    }
  }

  lemma GeneralRulesAgree(d: Draft)
    ensures AgreesOn(GeneralRules(d), d, {EmployeId, TypeDemande, Titre, DateDepart})
  {
    var m1 := WithVerdict(map[], d, EmployeId);
    AgreesOnWithVerdict(map[], d, {}, EmployeId);
    var m2 := WithVerdict(m1, d, TypeDemande);
    AgreesOnWithVerdict(m1, d, {EmployeId}, TypeDemande);
    var m3 := WithVerdict(m2, d, Titre);
    AgreesOnWithVerdict(m2, d, {EmployeId, TypeDemande}, Titre);
    AgreesOnWithVerdict(m3, d, {EmployeId, TypeDemande, Titre}, DateDepart);
  }

  lemma LeaveRulesAgree(d: Draft)
    ensures AgreesOn(LeaveRules(GeneralRules(d), d), d,
      {EmployeId, TypeDemande, Titre, DateDepart, DateRetour, TypeConge, TypeCongeAutre})
  {
    var fs := {EmployeId, TypeDemande, Titre, DateDepart};
    GeneralRulesAgree(d);
    var m5 := WithVerdict(GeneralRules(d), d, DateRetour);
    AgreesOnWithVerdict(GeneralRules(d), d, fs, DateRetour);
    var m6 := WithVerdict(m5, d, TypeConge);
    AgreesOnWithVerdict(m5, d, fs + {DateRetour}, TypeConge);
    AgreesOnWithVerdict(m6, d, fs + {DateRetour} + {TypeConge}, TypeCongeAutre);
  }

  lemma AllRulesAgree(d: Draft)
    ensures AgreesOn(RulesInTurn(d), d, RuledFields)
  {
    var fs := {EmployeId, TypeDemande, Titre, DateDepart, DateRetour, TypeConge, TypeCongeAutre};
    LeaveRulesAgree(d);
    var m7 := LeaveRules(GeneralRules(d), d);
    var m8 := WithVerdict(m7, d, HeureDepart);
    AgreesOnWithVerdict(m7, d, fs, HeureDepart);
    AgreesOnWithVerdict(m8, d, fs + {HeureDepart}, HeureRetour);
    assert fs + {HeureDepart} + {HeureRetour} == RuledFields;
  }

  /** Running the rules one field after another builds the validator's map. */
  lemma RulesInTurnIsValidate(d: Draft)
    ensures RulesInTurn(d) == Validate(d)
  {
    AllRulesAgree(d);
    AgreesOnAllFields(RulesInTurn(d), d);
  }

  /** The validator reports no error exactly for the drafts the rules accept. */
  lemma ValidIffAcceptable(d: Draft)
    ensures Validate(d) == map[] <==> Acceptable(d)
  {
    if Validate(d) == map[] {
      assert !InError(d, DateRetour) && !InError(d, HeureRetour);
      forall f | f in RequiredFields(d)
        ensures Present(d, f)
      {
        assert f !in Validate(d);
      }
    } else {
      var f :| f in Validate(d);
      assert InError(d, f);
    }
  }

  /** The four fields every request needs, each with its own message, whatever
      the request type. */
  lemma AlwaysRequiredFields(d: Draft)
    ensures EmployeId in Validate(d) <==> d.employeId == ""
    ensures TypeDemande in Validate(d) <==> d.typeDemande == ""
    ensures Titre in Validate(d) <==> IsBlank(d.titre)
    ensures DateDepart in Validate(d) <==> d.dateDepart == ""
    ensures EmployeId in Validate(d) ==> Validate(d)[EmployeId] == MsgEmploye
    ensures TypeDemande in Validate(d) ==> Validate(d)[TypeDemande] == MsgTypeDemande
    ensures Titre in Validate(d) ==> Validate(d)[Titre] == MsgTitre
    ensures DateDepart in Validate(d) ==> Validate(d)[DateDepart] == MsgDateDepart
  {
  }

  /** The fields that only some request types require, and the two that
      never carry an error. */
  lemma TypeSpecificRequirements(d: Draft)
    ensures d.dateRetour == "" ==>
      (DateRetour in Validate(d) <==> d.typeDemande == CONGES || d.typeDemande == MISSION)
    ensures d.heureDepart == "" ==>
      (HeureDepart in Validate(d) <==> d.typeDemande == AUTORISATION || d.typeDemande == MISSION)
    ensures d.heureRetour == "" ==>
      (HeureRetour in Validate(d) <==> d.typeDemande == AUTORISATION || d.typeDemande == MISSION)
    ensures d.typeConge == "" ==> (TypeConge in Validate(d) <==> d.typeDemande == CONGES)
    ensures TypeCongeAutre in Validate(d) <==>
      d.typeDemande == CONGES && d.typeConge == AUTRE && IsBlank(d.typeCongeAutre)
    ensures DemiJournee !in Validate(d) && FraisDeplacement !in Validate(d)
  {
    ValidateAt(d, DateRetour);
    ValidateAt(d, HeureDepart);
    ValidateAt(d, HeureRetour);
    ValidateAt(d, TypeConge);
    ValidateAt(d, TypeCongeAutre);
    ValidateAt(d, DemiJournee);
    ValidateAt(d, FraisDeplacement);
  }

  /** Leave and mission: with both dates filled in, the return date is in
      error exactly when it is strictly before the departure date, so equal
      dates pass. */
  lemma DateOrderRule(d: Draft)
    requires d.typeDemande == CONGES || d.typeDemande == MISSION
    requires d.dateDepart != "" && d.dateRetour != ""
    ensures DateRetour in Validate(d) <==> LexLess(d.dateRetour, d.dateDepart)
    ensures DateRetour in Validate(d) ==> Validate(d)[DateRetour] == MsgDateOrder
    ensures d.dateRetour == d.dateDepart ==> DateRetour !in Validate(d)
  {
    LexLessIrreflexive(d.dateRetour);
  }

  /** Authorization: with both times filled in, the return time is in error
      exactly when it is not strictly after the departure time, so equal
      times fail. */
  lemma TimeOrderRule(d: Draft)
    requires d.typeDemande == AUTORISATION
    requires d.heureDepart != "" && d.heureRetour != ""
    ensures HeureRetour in Validate(d) <==> !LexLess(d.heureDepart, d.heureRetour)
    ensures HeureRetour in Validate(d) ==> Validate(d)[HeureRetour] == MsgHeureOrder
    ensures d.heureRetour == d.heureDepart ==> HeureRetour in Validate(d)
    ensures LexLess(d.heureRetour, d.heureDepart) ==> HeureRetour in Validate(d)
  {
    LexLessIrreflexive(d.heureDepart);
    LexTrichotomy(d.heureDepart, d.heureRetour);
  }

  /** A mission needs both times but does not compare them. */
  lemma MissionTimesUnordered(d: Draft)
    requires d.typeDemande == MISSION
    ensures HeureRetour in Validate(d) <==> d.heureRetour == ""
    ensures HeureDepart in Validate(d) <==> d.heureDepart == ""
  {
  }

  /** Leave from 2024-03-10 back on 2024-03-05: the return date is rejected
      as before the departure. */
  lemma ReturnBeforeDepartureExample()
    ensures var d := InitialDraft.(typeDemande := CONGES, dateDepart := "2024-03-10", dateRetour := "2024-03-05");
      DateRetour in Validate(d) && Validate(d)[DateRetour] == MsgDateOrder
  {
    var d := InitialDraft.(typeDemande := CONGES, dateDepart := "2024-03-10", dateRetour := "2024-03-05");
    assert d.dateRetour[..8] == d.dateDepart[..8];
    LexLessAt(d.dateRetour, d.dateDepart, 8);
    DateOrderRule(d);
  }

  /** Authorization leaving and returning at 09:00: the return time is rejected. */
  lemma EqualTimesExample()
    ensures var d := InitialDraft.(typeDemande := AUTORISATION, heureDepart := "09:00", heureRetour := "09:00");
      HeureRetour in Validate(d) && Validate(d)[HeureRetour] == MsgHeureOrder
  {
    LexLessIrreflexive("09:00");
  }

  /** Leave of kind "autre" without a description: the description is required. */
  lemma MissingLeaveDescriptionExample()
    ensures var d := InitialDraft.(typeDemande := CONGES, typeConge := AUTRE, typeCongeAutre := "  ");
      TypeCongeAutre in Validate(d) && Validate(d)[TypeCongeAutre] == MsgTypeCongeAutre
  {
  }

  /** An authorization with an employee, a title, a day and the times 08:00
      and 10:00 passes every rule. */
  lemma AuthorizationExampleValidates(id: string, titre: string, day: string)
    requires id != "" && !IsBlank(titre) && day != ""
    ensures Validate(Draft(id, AUTORISATION, titre, day, "", "08:00", "10:00", false, "", "", "")) == map[]
  {
    var d := Draft(id, AUTORISATION, titre, day, "", "08:00", "10:00", false, "", "", "");
    assert LexLess(d.heureDepart, d.heureRetour);
    assert forall f | f in RequiredFields(d) :: Present(d, f);
    ValidIffAcceptable(d);
  }

  /** A change of request type never carries a previous type's values over:
      every type-specific field the new type requires has to be filled in again. */
  lemma TypeChangeDropsStaleValues(d: Draft, v: string)
    ensures var r := WithType(d, v);
      && (v == CONGES || v == MISSION ==> DateRetour in Validate(r))
      && (v == AUTORISATION || v == MISSION ==> HeureDepart in Validate(r) && HeureRetour in Validate(r))
      && (v == CONGES ==> TypeConge in Validate(r))
      && TypeCongeAutre !in Validate(r)
  {
    var r := WithType(d, v);
    assert r.dateRetour == "" && r.heureDepart == "" && r.heureRetour == "" && r.typeConge == "";
    assert InError(r, DateRetour) <==> v == CONGES || v == MISSION;
    assert InError(r, HeureDepart) <==> v == AUTORISATION || v == MISSION;
    assert InError(r, HeureRetour) <==> v == AUTORISATION || v == MISSION;
    assert InError(r, TypeConge) <==> v == CONGES;
    assert !InError(r, TypeCongeAutre);
  }

  /* ---------------------------------------------------------------------
     Payload
     --------------------------------------------------------------------- */

  /** The JSON body of `POST /api/demandes`. `None` is `null`; the travel
      expense is the text `parseFloat` would read. */
  datatype DemandePayload = DemandePayload(
    employeId: string,
    typeDemande: string,
    titre: string,
    dateDepart: string,
    dateRetour: Option<string>,
    heureDepart: Option<string>,
    heureRetour: Option<string>,
    demiJournee: bool,
    typeConge: Option<string>,
    typeCongeAutre: Option<string>,
    fraisDeplacement: Option<string>)

  /** `value || null` on a text. */
  function OrNull(s: string): Option<string> {
    if s == "" then None else Some(s)
  }

  /** `dataToSend`: the draft with the selected employee's id, empty optional
      texts as `null`, and the leave description trimmed when the leave kind
      is "autre" and the description is not empty, `null` otherwise. */
  function BuildPayload(d: Draft, selectedId: string): (p: DemandePayload)
    ensures PayloadDraft(p) == d.(employeId := selectedId,
      typeCongeAutre := if d.typeConge == AUTRE then Trim(d.typeCongeAutre) else "")
    ensures p.dateRetour.None? <==> d.dateRetour == ""
    ensures p.heureDepart.None? <==> d.heureDepart == ""
    ensures p.heureRetour.None? <==> d.heureRetour == ""
    ensures p.typeConge.None? <==> d.typeConge == ""
    ensures p.fraisDeplacement.None? <==> d.fraisDeplacement == ""
    ensures p.typeCongeAutre.Some? <==> d.typeConge == AUTRE && d.typeCongeAutre != ""
  {
    TrimEmptyIffBlank(d.typeCongeAutre);
    DemandePayload(
      selectedId, d.typeDemande, d.titre, d.dateDepart,
      OrNull(d.dateRetour), OrNull(d.heureDepart), OrNull(d.heureRetour),
      d.demiJournee,
      OrNull(d.typeConge),
      if d.typeConge == AUTRE && d.typeCongeAutre != "" then Some(Trim(d.typeCongeAutre)) else None,
      OrNull(d.fraisDeplacement))
  }
  /** A leave description that is sent has no whitespace left at either end
      and is a piece of what was typed. */
  lemma SentDescriptionIsNormal(d: Draft, selectedId: string)
    ensures var p := BuildPayload(d, selectedId);
      p.typeCongeAutre.Some? ==>
        && Trim(p.typeCongeAutre.value) == p.typeCongeAutre.value
        && Contains(d.typeCongeAutre, p.typeCongeAutre.value)
  {
    TrimNormalForm(d.typeCongeAutre);
  }

  /** `null` read back as the empty text. */
  function OrEmpty(o: Option<string>): string {
    match o
    case None => ""
    case Some(s) => s
  }

  /** A payload read back into a draft, `null` becoming the empty text. */
  function PayloadDraft(p: DemandePayload): Draft {
    Draft(p.employeId, p.typeDemande, p.titre, p.dateDepart,
      OrEmpty(p.dateRetour), OrEmpty(p.heureDepart), OrEmpty(p.heureRetour),
      p.demiJournee, OrEmpty(p.typeConge), OrEmpty(p.typeCongeAutre), OrEmpty(p.fraisDeplacement))
  }

  /** The leave description is already in the form the payload gives it:
      trimmed when the leave kind is "autre", empty otherwise. */
  predicate DescriptionNormal(d: Draft) {
    if d.typeConge == AUTRE then Trim(d.typeCongeAutre) == d.typeCongeAutre else d.typeCongeAutre == ""
  }

  /** Reading the payload back gives the draft (for the selected employee)
      exactly when its leave description was already normal: `null` stands
      for the empty text and for nothing else. */
  lemma PayloadRoundTrip(d: Draft)
    ensures PayloadDraft(BuildPayload(d, d.employeId)) == d <==> DescriptionNormal(d)
  {
    var p := BuildPayload(d, d.employeId);
    TrimEmptyIffBlank(d.typeCongeAutre);
    assert OrEmpty(p.typeCongeAutre) == if d.typeConge == AUTRE then Trim(d.typeCongeAutre) else "";
    assert PayloadDraft(p) == d.(typeCongeAutre := OrEmpty(p.typeCongeAutre));
  }

  /** No field of the payload is present with an empty text. */
  predicate NoEmptyText(p: DemandePayload) {
    && p.dateRetour != Some("") && p.heureDepart != Some("") && p.heureRetour != Some("")
    && p.typeConge != Some("") && p.typeCongeAutre != Some("") && p.fraisDeplacement != Some("")
  }

  /** The payload only carries an empty text when the leave kind is "autre"
      and its description is non-empty whitespace. */
  lemma PayloadEmptyTextOnlyFromWhitespace(d: Draft, selectedId: string)
    ensures !NoEmptyText(BuildPayload(d, selectedId)) <==>
      d.typeConge == AUTRE && d.typeCongeAutre != "" && IsBlank(d.typeCongeAutre)
  {
    var p := BuildPayload(d, selectedId);
    // `value || null` never yields the empty text, so only the description can.
    assert NoEmptyText(p) <==> p.typeCongeAutre != Some("");
    TrimEmptyIffBlank(d.typeCongeAutre);
  }

  /** A leave request that passes validation sends no empty text. */
  lemma ValidLeavePayloadHasNoEmptyText(d: Draft, selectedId: string)
    requires Validate(d) == map[] && d.typeDemande == CONGES
    ensures NoEmptyText(BuildPayload(d, selectedId))
  {
    if d.typeConge == AUTRE {
      assert TypeCongeAutre !in Validate(d);
      TrimEmptyIffBlank(d.typeCongeAutre);
    }
  }
}
