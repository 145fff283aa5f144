/** What compiling a pattern reports. */
module BreStatus {
  datatype Status = Ok | BadPattern | Encoding | Limit | Argument | Unsupported
}
