/** What the machines share: a value that may be missing, and the result handed to a callback of the
    stack (bt_vendor_op_result_t). */
module Results {
  datatype Option<T> = None | Some(value: T)

  datatype Outcome = Success | Fail
}
