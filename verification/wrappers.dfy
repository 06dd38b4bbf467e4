/** Optional values: a JavaScript field that may be absent (`undefined`). */
module Wrappers {

  datatype Option<+T> = None | Some(value: T) {

    /** The value, or `default` when absent (the `x ?? default` idiom). */
    function GetOr(default: T): T {
      match this
      case Some(v) => v
      case None => default
    }
  }
}

/** HTTP verbs and endpoints the dashboard pages choose between. */
module Http {

  datatype Method = Post | Put | Delete

  datatype Endpoint = Endpoint(verb: Method, path: string)

  /** A file the user picked in the browser; only its identity matters here. */
  datatype LocalFile = LocalFile(name: string)

  /** One entry of a `FormData` body: a text value or a picked file. */
  datatype FormPart = TextPart(field: string, text: string) | FilePart(field: string, file: LocalFile)
}
