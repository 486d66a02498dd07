/** Failure-carrying wrappers shared by the whole model: `Option` for the
    source's nullable references and lookups that may miss, `Result` for
    operations that either produce a value or raise an exception. */
module Results {

  datatype Option<+T> = None | Some(value: T)

  datatype Result<+T, +E> = Success(value: T) | Failure(error: E)
}
