/** The two error kinds the containers raise, and a result type carrying either a value or one of them. */
module Results {

  /** `std::out_of_range` (a bad size or index) and `std::logic_error` (operands of different shapes). */
  datatype Error = OutOfRange | LogicError

  datatype Result<T> = Ok(value: T) | Err(error: Error)
}
