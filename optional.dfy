/** Absent-or-present values and success-or-error results, used where the
    JavaScript code returns `null`/`undefined` or throws. */
module Optional {

  datatype Option<T> = None | Some(value: T)

  datatype Result<T> = Ok(value: T) | Err(reason: string)
}
