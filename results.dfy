/** Optional values and results that carry the text of a raised Python exception. */
module Results {

  datatype Option<+T> = None | Some(value: T)

  /** `Err(msg)` stands for an exception whose `str(e)` is `msg`. */
  datatype Result<+T> = Ok(value: T) | Err(msg: string)
}
