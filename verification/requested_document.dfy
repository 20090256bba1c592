/** The document records the custom-request screen receives and hands back. */
module RequestedDocument {
  import opened ConfigModel

  /** A document the verifier wants to request, with the claims selected for it. */
  datatype RequestedDocumentUi = RequestedDocumentUi(
    id: string,
    documentType: AttestationType,
    mode: DocumentMode,
    claims: seq<ClaimItem>)

  /** The payload passed back to the screen that opened the custom request. */
  datatype RequestedDocsHolder = RequestedDocsHolder(items: seq<RequestedDocumentUi>)
}
