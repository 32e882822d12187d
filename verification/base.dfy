/** Small wrapper types shared by every module of the model. */
module Base {

  /** Kotlin's nullable `T?`: `None` stands for `null`. */
  datatype Option<+T> = None | Some(value: T) {

    /** Kotlin's elvis operator `x ?: default`. */
    function GetOr(default: T): T {
      match this
      case Some(v) => v
      case None => default
    }
  }

  /** Kotlin's `getInstance()` either yields the instance or throws. */
  datatype Result<+T, +E> = Ok(value: T) | Err(error: E)

  /**
   * What an HTTP round trip followed by a Gson decode produced.
   * `NoResponse` covers a transport exception, a non-2xx status and a missing
   * body object (these make the request helper return `null`), and also an
   * empty body: the helper returns `""` for it, and Gson decodes an empty
   * document to `null`, so the caller sees the same `null`. `Malformed` is a
   * body the JSON decoder rejects by throwing; `Decoded` is a decoded value.
   */
  datatype Reply<+T> = NoResponse | Malformed | Decoded(value: T)
}
