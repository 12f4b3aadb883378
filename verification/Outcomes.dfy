/** How the execution of a node ends. */
module Outcomes {

  datatype Outcome<T> = Value(value: T) | Error
}
