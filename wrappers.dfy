/** Values shared by every module: an optional value (C#'s null), the .NET
    exceptions the modelled code raises or catches, and a result that either
    carries a value or says which exception escaped. */
module Wrappers {

  datatype Option<+T> = None | Some(value: T)

  /** The exceptions that matter to the modelled code. `WebDriverException`
      is the only one the fault-isolation wrappers intercept. */
  datatype Exception =
    | WebDriverException
    | NullReferenceException
    | NotImplementedException
    | ArgumentNullException
    | OtherException(name: string)

  /** Either the value a call produced, or the exception that escaped it. */
  datatype Result<+T> = Ok(value: T) | Threw(error: Exception)
}
