/** The outcome of a step that Python would abort with an exception. */
module Outcome {

  /** The exceptions the modelled code can raise. */
  datatype Error =
    | IndexError        // a list index past the end (`tokens[3]`, `geometry[0]`, `glob(...)[0]`)
    | FileNotFoundError // `shutil.move` from a missing file or into a missing directory

  datatype Result<T> = Ok(value: T) | Err(error: Error)
}
