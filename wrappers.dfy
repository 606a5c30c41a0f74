/** Option and Result, the failure-carrying values of this model, and the
    exceptions the modelled Python code raises. */
module Wrappers {

  datatype Option<+T> = None | Some(value: T)

  datatype Result<+T, +E> = Ok(value: T) | Err(error: E)

  /** The exceptions that leave the modelled code. */
  datatype Error =
      /** `ValueError(message)` */
    | ValueError(message: string)
      /** whatever `ast.literal_eval` raised on the given tool input text */
    | LiteralError(input: string)
      /** an exception raised inside a tool, with its `args` */
    | ToolRaised(args: seq<string>)
}
