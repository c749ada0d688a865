/**
 * What the two forms share: the status shown under the submit button and the
 * shape of a document handed to the document store's `addDoc` call.
 */
module Submission {

  /** The `'idle' | 'success' | 'error'` state of a form's submission banner. */
  datatype SubmitStatus = Idle | Success | Error

  /**
   * A document as the forms hand it to `addDoc(collection(db, name), fields)`:
   * the target collection, the string fields of the form, and the submission
   * time, which the model takes as a parameter instead of reading a clock.
   */
  datatype Document = Document(collection: string, fields: map<string, string>, timestamp: int)
}
