# HR request form: validation, submission gating and employee search

This project models the logic of `DemandeRHForm`, the single React page of an
HR portal. Employees use it to file a request ("demande": an authorisation
to leave for a few hours, leave, or a mission) and to ask for a certificate
(a work or salary attestation). The model covers what the page does between
the user's input and the network:

- **Request validation** (`DemandeRequest.Validate`, `RhForm.DemandeRhForm.ValidateDemandeForm`).
  A draft is turned into a field-to-message error map. Four fields are
  always required. Others are required by request type. Two cross-field
  checks apply: the return date must not be before the departure date, and
  for an authorisation the return time must be strictly after the departure
  time. The form is valid exactly when the map is empty.
- **Submission gating and the request body** (`HandleDemandeSubmit`,
  `BuildPayload`, `HandleDocumentSubmit`, `DocumentPayload`). A submission
  needs a selected employee and, for a request, a valid draft. The body
  carries the selected employee's id, `null` for the empty optional texts,
  and the leave description trimmed.
- **State handlers** (class `RhForm.DemandeRhForm`). Its fields are the
  page's state cells. Its methods are the handlers:
  - change one field, clearing that field's error;
  - change the request type, dropping the type-specific values and errors;
  - select an employee;
  - the delayed reset after a successful submission.
- **Employee search** (`EmployeeDirectory`, class `EmployeeSearch.SearchBox`).
  This is the case-insensitive substring filter over the roster and the
  picker's input, focus, blur and select handlers.

The JavaScript string operations the logic depends on are written out in
`JsText`:

- `trim`, with ECMAScript's whitespace set;
- ASCII `toLowerCase`;
- `includes`;
- the `<` comparison of strings.

Modules, in dependency order: `Wrappers` (Option), `JsText`,
`EmployeeDirectory`, `EmployeeSearch`, `DemandeRequest`, `DocumentRequest`,
`RhForm`.

How the code is organised:

- React's effects that re-filter the roster run immediately after the
  handler that changed the search text or the roster.
- The two timers (the 4-second reset after a success and the 200 ms close
  after a blur) are methods of their own.
- The server's answer comes back as a `RequestResult` argument to the
  `Complete...Request` methods.
- The class invariant `Valid()` says two things. Each picker's suggestions
  are the search of the current roster for its text. Each form's
  `employe_id` is the id its picker has selected.

Validation is specified twice, and the two are proved equal:

- per field, as `FieldError`;
- as a table of required fields (`RequiredFields`, `Present`) plus the two
  ordering checks.

The class method builds the map by the source's successive conditional
assignments (`CheckGeneralFields`, `CheckLeaveFields`, `CheckTimeFields`).
It is proved to produce `Validate` of the draft through `RulesInTurn`.

## Model

| member | source | states |
|---|---|---|
| JsText.TrimEmptyIffBlank | src/App.js:264 | `!s.trim()` holds exactly when every character of `s` is ECMAScript whitespace (so the empty text counts as blank) |
| JsText.TrimStart | src/App.js:342 | the leading part removed is all whitespace, the rest is a suffix of the input and does not start with whitespace |
| JsText.TrimEnd | src/App.js:342 | the trailing part removed is all whitespace, the rest is a prefix of the input and does not end with whitespace |
| JsText.TrimNormalForm | src/App.js:342 | the trimmed text neither starts nor ends with whitespace, occurs inside the original, and trimming it again changes nothing |
| JsText.ToLower | src/App.js:205-207 | lower-casing keeps the length and maps each character on its own (ASCII letters to lower case) |
| JsText.ContainsPrefix | src/App.js:209-213 | `includes` finds a text in any text it starts |
| JsText.ContainsSuffix | src/App.js:209-213 | `includes` finds a text in any text it ends |
| JsText.ContainsTransitive | src/App.js:209-213 | what `includes` finds in a factor of a text it finds in the text |
| JsText.ContainsLower | src/App.js:205-212 | lower-casing both sides keeps every occurrence |
| JsText.LexLessIrreflexive | src/App.js:298 | no text is `<` itself, so `heure_retour <= heure_depart` holds for equal times |
| JsText.LexTrichotomy | src/App.js:298 | two texts compare in exactly one of `<`, `==`, `>` |
| JsText.LexLessAt | src/App.js:275 | texts equal up to position k and smaller at k compare smaller |
| EmployeeDirectory.FilterMatching | src/App.js:204-214 | the filter keeps the matching employees in roster order, each as often as it occurs, and drops every other |
| EmployeeDirectory.SearchEmployees | src/App.js:200-217 | a blank search text gives no suggestions; otherwise an employee is suggested iff it is in the roster and one of its five lower-cased descriptions contains the lower-cased text, in roster order |
| EmployeeDirectory.LabelHoldsDescriptions | src/App.js:205-206 | the full name, last name, first name and job title all occur in the label `nom prenom - poste` |
| EmployeeDirectory.FoundInPieceIsFoundInLabel | src/App.js:209-213 | a search text found in a lower-cased piece of the label is found in the lower-cased label |
| EmployeeDirectory.PiecesLeadToLabel | src/App.js:209-213 | a text found in the full name, the last name, the first name or the job title is also found in the lower-cased label |
| EmployeeDirectory.Matches | src/App.js:204-214 | the five-way test on an employee holds exactly when the lower-cased label `nom prenom - poste` contains the typed text |
| EmployeeDirectory.PickedEmployeeIsListed | src/App.js:34 | once an employee of the roster is picked and its label becomes the search text, the search lists that employee |
| EmployeeSearch.SelectionOf | src/App.js:28-34 | the selection keeps the employee's id, is never the empty selection, and its name is the label shown in the box with the `- poste` part removed, so the box text contains it |
| EmployeeSearch.SearchBox.constructor | src/App.js:138-146 | the picker starts with empty text, no suggestions, a closed list and no selection |
| EmployeeSearch.SearchBox.Refilter | src/App.js:200-217 | after the filtering effect the suggestions are the search of the roster for the current text |
| EmployeeSearch.SearchBox.Select | src/App.js:27-40 | picking records the selection, shows the label, closes the list, and the picked employee is among the new suggestions |
| EmployeeSearch.SearchBox.InputChange | src/App.js:42-59 | the text becomes the typed value; a blank value drops the selection and closes the list, any other opens it and keeps the selection |
| EmployeeSearch.SearchBox.Focus | src/App.js:67-71 | the list opens when the text is not blank and there are suggestions, and otherwise keeps its state |
| EmployeeSearch.SearchBox.BlurElapsed | src/App.js:61-65 | when the blur timer fires the list is closed |
| EmployeeSearch.SearchBox.Clear | src/App.js:374-376 | the reset empties the text, the selection and the suggestions and leaves the list's visibility alone |
| DemandeRequest.SetField | src/App.js:389-393 | the named field takes the value and every other field keeps its own |
| DemandeRequest.ClearError | src/App.js:395-401 | the field's error is no longer truthy, no key is added or removed, the other messages are kept, and a map where the error was not set is unchanged |
| DemandeRequest.WithType | src/App.js:405-417 | the new type is set, employee, reason and departure date are kept, every type-specific field is back to its initial value |
| DemandeRequest.ClearTypeErrors | src/App.js:418-425 | exactly the five type-specific errors are set to the empty message and every other entry is untouched |
| DemandeRequest.FieldErrorMeaning | src/App.js:262-307 | each field's message appears exactly when the field is required and not filled in or breaks an ordering, and no message is empty |
| DemandeRequest.Validate | src/App.js:258-311 | a field has an entry exactly when the rules reject it, and every message is non-empty |
| DemandeRequest.RulesInTurnIsValidate | src/App.js:259-307 | running the source's conditional assignments in order, from an empty map, builds exactly the validator's map |
| DemandeRequest.ValidIffAcceptable | src/App.js:309-310 | the validator returns true exactly for the drafts whose required fields are all filled in and whose dates and times are in order |
| DemandeRequest.AlwaysRequiredFields | src/App.js:262-265 | for every request type, an empty employee, empty type, blank reason or empty departure date each gets its own keyed message, and nothing else triggers those keys |
| DemandeRequest.TypeSpecificRequirements | src/App.js:268-307 | return date required for leave and mission; both times for authorisation and mission; leave kind for leave; the leave description only errs for leave of kind "autre" with a blank text; half-day and travel expense never err |
| DemandeRequest.DateOrderRule | src/App.js:272-278 | for leave and mission with both dates set, the return date errs exactly when it is strictly before the departure, with the ordering message; equal dates pass |
| DemandeRequest.TimeOrderRule | src/App.js:297-301 | for an authorisation with both times set, the return time errs exactly when it is not strictly after the departure, with the ordering message; equal times fail |
| DemandeRequest.MissionTimesUnordered | src/App.js:304-307 | a mission requires both times but never compares them |
| DemandeRequest.ReturnBeforeDepartureExample | src/App.js:275-276 | leave from 2024-03-10 back on 2024-03-05 gets the date-order message |
| DemandeRequest.EqualTimesExample | src/App.js:298-299 | an authorisation from 09:00 to 09:00 gets the time-order message |
| DemandeRequest.MissingLeaveDescriptionExample | src/App.js:286-289 | leave of kind "autre" with a whitespace-only description gets the description message |
| DemandeRequest.AuthorizationExampleValidates | src/App.js:262-307 | an authorization with an employee, a title, a day and the times 08:00 to 10:00 passes every rule |
| DemandeRequest.TypeChangeDropsStaleValues | src/App.js:405-417 | after a type change every type-specific field the new type requires is in error again, and the leave description never is |
| DemandeRequest.PayloadRoundTrip | src/App.js:331-345 | for every draft, reading the body back (`null` as empty) gives the draft exactly when its leave description is already trimmed (kind "autre") or empty (other kinds) |
| DemandeRequest.BuildPayload | src/App.js:331-345 | the body carries every draft field with the chosen employee's id; each optional text is `null` exactly when it is empty; the leave description is sent only for kind "autre" and when filled in, and then trimmed |
| DemandeRequest.SentDescriptionIsNormal | src/App.js:342 | a leave description that is sent has no whitespace at either end and is a piece of the typed text |
| DemandeRequest.PayloadEmptyTextOnlyFromWhitespace | src/App.js:335-343 | the body holds an empty text exactly when the leave kind is "autre" and the description is non-empty whitespace |
| DemandeRequest.ValidLeavePayloadHasNoEmptyText | src/App.js:323-343 | a leave request that passes validation sends no empty text |
| DocumentRequest.DocumentPayload | src/App.js:449-452 | the body keeps the certificate kind and takes the selected id, and equals the draft exactly when the draft already names that employee |
| RhForm.ResultAlert | src/App.js:378-383 | no alert on acceptance; on refusal the server's non-empty message, and the fallback when the server gave none or an empty one; the connection message when nothing came back |
| RhForm.CheckGeneralFields | src/App.js:262-265 | the four unconditional rules give the first stage of the validator's map |
| RhForm.CheckLeaveFields | src/App.js:268-290 | the return-date, leave-kind and description rules give the second stage |
| RhForm.CheckTimeFields | src/App.js:292-307 | the authorisation and mission time rules give the last stage |
| RhForm.DemandeRhForm.constructor | src/App.js:131-181 | the page mounts with an empty roster, initial drafts, no errors, nothing loading or submitted, and two new pickers of its own, both empty, with no list and no dropdown shown |
| RhForm.DemandeRhForm.ReceiveEmployees | src/App.js:192 | the roster is replaced and both pickers' suggestions follow it |
| RhForm.DemandeRhForm.HandleEmployeeSelect | src/App.js:243-256 | the draft takes the id and only the employee error is cleared, only if it was set |
| RhForm.DemandeRhForm.SelectDemandeEmployee | src/App.js:27-40 | picking in the request form records the selection and the draft's id together |
| RhForm.DemandeRhForm.DemandeSearchInput | src/App.js:42-59 | typing a blank text also clears the draft's id and its error; other text leaves the draft and errors alone |
| RhForm.DemandeRhForm.ValidateDemandeForm | src/App.js:258-311 | the errors become the validator's map and the result is true exactly when it is empty |
| RhForm.DemandeRhForm.HandleDemandeSubmit | src/App.js:313-345 | without a selected employee only the employee error is set, the others kept, and nothing is sent; otherwise the request is sent exactly when the draft validates, with the normalised body, and the form is loading |
| RhForm.DemandeRhForm.CompleteDemandeRequest | src/App.js:355-386 | loading ends; success is shown only on acceptance; the alert is the one for the outcome |
| RhForm.DemandeRhForm.ResetAfterDemandeSuccess | src/App.js:357-376 | the success view goes, the draft is initial and the picker is emptied |
| RhForm.DemandeRhForm.HandleDemandeInputChange | src/App.js:389-402 | one field changes, nothing else in the draft does, and only that field's error is cleared, only if it was set |
| RhForm.DemandeRhForm.HandleTypeDemandeChange | src/App.js:405-426 | the draft switches type with its type-specific values reset, and exactly the five type-specific errors are cleared |
| RhForm.DemandeRhForm.HandleDocumentEmployeeSelect | src/App.js:432-437 | the document draft takes the id |
| RhForm.DemandeRhForm.SelectDocumentEmployee | src/App.js:27-40 | picking in the document form records the selection and the draft's id together |
| RhForm.DemandeRhForm.DocumentSearchInput | src/App.js:42-59 | typing a blank text also clears the document draft's id; other text leaves it alone |
| RhForm.DemandeRhForm.HandleDocumentInputChange | src/App.js:487-492 | the certificate kind changes and nothing else |
| RhForm.DemandeRhForm.HandleDocumentSubmit | src/App.js:439-452 | without a selected employee the user is alerted and nothing is sent; otherwise the draft goes out with the selected id, which is already the draft's, and the form is loading |
| RhForm.DemandeRhForm.CompleteDocumentRequest | src/App.js:462-484 | loading ends; success is shown only on acceptance; the alert is the one for the outcome |
| RhForm.DemandeRhForm.ResetAfterDocumentSuccess | src/App.js:464-475 | the success view goes, the document draft is initial and the picker is emptied |
| RhForm.MountAndReceive | src/App.js:131-192 | mounting the page and receiving the roster gives a new page with new pickers, the roster stored, nothing loading or submitted and an empty draft, so every handler can then be called on it |
| RhForm.SubmitAcceptReset | src/App.js:313-377 | a picked employee and a draft that passes the rules: the body of that draft goes out, the acceptance raises no alert, and the reset leaves the page idle with an empty draft and an empty picker |

## Left out

- Network I/O is not modelled: `fetch`, `response.json()`, `alert` and `console.error` (src/App.js:187-197, 347-353, 378-386, 454-484). A submission ends in "blocked" or "send this body"; the answer is an argument to `CompleteDemandeRequest` and `CompleteDocumentRequest`, and the alert text is returned rather than shown.
- Loading the roster is reduced to `ReceiveEmployees`, which takes the data as an argument. The failure alert of `fetchEmployees` is I/O.
- Timers are not modelled. The 4-second success reset and the 200 ms blur are the methods `ResetAfter...Success` and `SearchBox.BlurElapsed`. Nothing orders them against other events.
- React's batching and render cycle are not modelled. Each effect that re-filters the roster runs right after the handler that changed its inputs.
- `parseFloat` of the travel expense (src/App.js:338) is floating point. The body keeps the text, `null` when empty.
- `new Date(...)` is not modelled (src/App.js:273-275). Dates and times are the texts the date and time inputs produce (`YYYY-MM-DD`, `HH:MM`), compared as strings. For such texts, string order is chronological order. Unparsable dates, which make `new Date` comparisons false, are not distinguished.
- String comparison is modelled over code points; JavaScript compares UTF-16 code units. The two differ only above U+FFFF, which date and time texts never contain.
- JsText.ToLower: handles ASCII letters only; JavaScript's full Unicode case mapping is not modelled.
- Employee ids are texts. A numeric id 0, which JavaScript treats as false, is not distinguished.
- Presentation is not modelled: JSX, CSS classes, icons, the `activeSection` tab switch and the success views (src/App.js:498-905). Neither is the `API_BASE_URL` configuration.
- RhForm.DemandeRhForm.HandleDemandeInputChange: requires a field other than `employe_id`. The page routes that field only through `handleEmployeeSelect`, and the invariant ties it to the picker's selection.
- RhForm.DemandeRhForm.HandleDemandeInputChange: requires a value of the field's kind (a boolean for `demi_journee`, text otherwise), as the inputs bind them.
- RhForm.DemandeRhForm.HandleDocumentInputChange: modelled for `type_document` only, the one field the page routes through it (src/App.js:860).
- RhForm.DemandeRhForm.HandleDemandeSubmit: requires that no request is in flight, because the submit button is disabled while loading (src/App.js:811).
- RhForm.DemandeRhForm.HandleDocumentSubmit: requires that no request is in flight, because its button is disabled while loading (src/App.js:884).
- The request type, leave kind and certificate kind are any text. The selects and radios only produce the listed values, which the model names as constants.
- There is no resignation request type and no health check in this source. Only the three request types at src/App.js:581-584 exist, so neither is modelled.
- The filtering effect for the document picker (src/App.js:220-237) repeats the one for the request picker. It is modelled once, as `SearchEmployees`, and both pickers use it.
