/** The error codes of the protocol. */
module Codes {
  const PROTOCOL := 1
  const UNAUTHORIZED := 2
  const INVALID := 3
  const CAPACITY := 4
  const LIMIT := 5
  const STORAGE := 6
  const CURSOR := 7
  const NO_SERVICE := 8
  const OVERLOADED := 9
  const DEADLINE_EXCEEDED := 10
  const SERVICE_UNAVAILABLE := 11
  const HANDLER_ERROR := 12
}
