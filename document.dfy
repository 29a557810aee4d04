/** The HR document request: which employee, which certificate. */
module DocumentRequest {

  /** The certificate kinds the document selector offers. */
  const ATTESTATION_TRAVAIL := "attestation_travail"
  const ATTESTATION_SALAIRE := "attestation_salaire"

  /** The alert shown when the document form is submitted without an employee. */
  const MsgSelectName := "Veuillez sélectionner votre nom"

  /** `documentFormData` */
  datatype DocumentDraft = DocumentDraft(employeId: string, typeDocument: string)

  /** The document draft when the form is mounted and after a successful request. */
  const InitialDocumentDraft := DocumentDraft("", ATTESTATION_TRAVAIL)

  /** `{ ...documentFormData, employe_id: selectedId }`: the certificate kind is
      kept, the id is the selected employee's, and the payload is the draft
      itself exactly when the draft already names that employee. */
  function DocumentPayload(d: DocumentDraft, selectedId: string): (r: DocumentDraft)
    ensures r.typeDocument == d.typeDocument && r.employeId == selectedId
    ensures r == d <==> d.employeId == selectedId
  {
    d.(employeId := selectedId)
  }
}
