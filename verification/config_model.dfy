/**
 * The configuration types the custom-request screen consumes: document kinds,
 * requestable claims and the catalogue of supported documents. Their Kotlin
 * declarations (package domain.config.model) are not part of this model; only
 * their shape as used by the interactor and the view-model is reproduced.
 */
module ConfigModel {

  /** Kind of identity document; the three constructors are the ones the tests name. */
  datatype AttestationType = Pid | Mdl | EmployeeId

  /** A single requestable attribute of a document, identified by its label
      (`label` in the source, renamed because `label` is a Dafny keyword). */
  datatype ClaimItem = ClaimItem(name: string)

  /** How a document is to be requested; carried through the screen unchanged. */
  datatype DocumentMode = DocumentMode(name: string)

  /** `SupportedDocuments.documents`: the ordered claims configured per document kind. */
  type SupportedDocuments = map<AttestationType, seq<ClaimItem>>
}
