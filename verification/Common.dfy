/** Result and option types shared by the model. */
module Common {
  datatype Option<+T> = None | Some(value: T)

  /** The errors a manager call can report; storage failures are one class. */
  datatype Error = JobNotFound | InvalidJobTransition | WorkflowRunIdRequired | StorageFailure

  datatype Result<+T> = Ok(value: T) | Err(error: Error)

  /** A storage call succeeds, fails without effect, or takes effect but reports failure. */
  datatype Fault = NoFault | Lost | AppliedUnacknowledged
}
