/** The dashboard's boundary: the REST requests it issues (recorded in a
    log instead of being sent), the outcome the caller supplies for each
    request, the `onSave` callback and the page notification. */
module Api {
  import opened JsValues

  datatype Verb = Post | Put | Delete

  /** A piece of a request path: literal text, or a value interpolated with
      `${...}` in the source's template literal. */
  datatype Segment = Lit(text: string) | Param(value: Value)

  datatype Request = Request(verb: Verb, path: seq<Segment>, body: Record)

  /** What became of one request. */
  datatype Outcome = Succeeded | Failed(failure: Failure)

  /** One call of `onSave(message, status)`. */
  datatype SaveEvent = SaveEvent(message: Payload, status: string)

  /** The page's notification state (the icon follows from `color`). */
  datatype Notice = Notice(open: bool, message: Payload, color: string)

  const CleanNotice: Notice := Notice(false, Str(""), "")

  const SavedMessage: string := "Registro salvo com sucesso!"
  const DeletedMessage: string := "Registro(s) excluído(s) com sucesso"
}
