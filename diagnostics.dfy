/** Diagnostic messages carried by a Reply when it holds no value. */
module Diagnostics {

  /** The severities of the protobuf `Msg` record. */
  datatype Severity = INFO | WARNING | ERROR | EXCEPTION

  /**
   * A diagnostic. `Text` is a bare string message, the kind Reply.java stores
   * (its default message is one); `Msg` is the (severity, text) record that
   * Validator, ServicePackage and the tests use.
   */
  datatype Message = Text(text: string) | Msg(severity: Severity, text: string)

  /** Reply.EMPTY_MESSAGE, the message of a Reply built without one. */
  const EMPTY_MESSAGE: Message := Text("There is no object")
}
