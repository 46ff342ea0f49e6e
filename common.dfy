/** Values shared by every part of the model: optional values, results of
    operations that may reject, the errors they reject with, and the few
    JavaScript values whose type the library tests at run time. */
module Common {

  datatype Option<T> = None | Some(value: T) {
    function GetOr(default: T): T {
      match this
      case Some(v) => v
      case None => default
    }
  }

  /** Outcome of an operation that resolves to a value or rejects with an error. */
  datatype Result<T> = Ok(value: T) | Err(error: Error)

  /** Why an operation rejected. */
  datatype Error =
    | Thrown(message: string)     // `new Error(message)` raised by the library itself
    | Rejected(message: string)   // a rejection of a foreign primitive, with its message
    | NoSuchPath(path: string)    // `stat` or `copyFile` asked about a path that does not exist
    | UndefinedPath               // the TypeError of reading `charAt` of `undefined`
  {
    /** The message a `catch` block sees; the foreign texts of the last two are not modelled. */
    function Message(): string {
      match this
      case Thrown(m) => m
      case Rejected(m) => m
      case NoSuchPath(_) => ""
      case UndefinedPath => ""
    }
  }

  /** A JavaScript argument as far as `_.isString` can tell: a string, or anything else. */
  datatype JsValue = Str(s: string) | NonString

  /** HTTP request headers, handed unchanged to the download primitive. */
  type Headers = map<string, string>
}
