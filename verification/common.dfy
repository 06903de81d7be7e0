/** Option and Result, the shapes used for the source's exceptions, error returns and fatal exits. */
module Common {

  datatype Option<+T> = None | Some(value: T)

  /** `Err` carries a short description of the failure; the source's message text is not modelled. */
  datatype Result<+T> = Ok(value: T) | Err(msg: string)
}
