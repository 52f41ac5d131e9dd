/** The two failure-carrying shapes the models use. */
module Options {
  datatype Option<+T> = None | Some(value: T)

  datatype Result<+T> = Success(value: T) | Failure(error: string)
}
