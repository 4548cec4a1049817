/** Value types shared by every component of the chatbot core. */
module Common {

  /** Python's `None` or a present value. */
  datatype Option<+T> = None | Some(value: T) {
    function GetOr(default: T): T {
      match this
      case Some(v) => v
      case None => default
    }
  }

  /** A returned value, or the exception that a Python call raises instead. */
  datatype Result<+T, +E> = Success(value: T) | Failure(error: E)

  /** One conversation turn, the dictionary `{"role": role, "content": content}`. */
  datatype Turn = Turn(role: string, content: string)

  /** A LangChain document: page text plus the `source` and `page` metadata that PyPDFLoader attaches. */
  datatype Document = Document(pageContent: string, source: string, page: nat)
}
