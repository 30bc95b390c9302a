/** Failure-compatible wrappers shared by every module of the model, and the
    errors the compiler and the exit handlers raise. */
module Results {

  /** Python's `None` / a present value. */
  datatype Option<+T> = None | Some(value: T)

  /** The exceptions the modelled code raises, one constructor per raise site kind. */
  datatype Error =
    | UnsupportedDecorator(step: string)        // AIPException: @batch / @schedule on a step
    | DeprecatedLocalStorage                    // ValueError: `local_storage` resource attribute
    | MissingAttribute(attribute: string)       // TypeError: int(None) on a missing attribute
    | InvalidInt(text: string)                  // ValueError: int() of a non-integer string
    | PrecedingNotCallable(step: string)        // TypeError: calling a preceding component that is None
    | MissingKey(key: string)                   // KeyError: a dictionary lookup that fails
    | MissingEntrypoint(name: string)           // IndexError: no template named like the entrypoint
    | UnsupportedKind(kind: string)             // NotImplementedError: unknown output kind
    | InvalidConcurrency                        // AIPException: max_run_concurrency must be > 0
    | LabelNameTooLong(name: string)            // ValueError: tag label name over 63 characters
    | LabelValueTooLong(value: string)          // ValueError: tag label value over 63 characters
    | LabelValueMalformed(value: string)        // ValueError: tag label value fails the pattern
    | NoExitCondition                           // AIPException: on_success and on_failure both False
    | MailNotSent                               // smtplib or socket error while sending the notification

  /** A value or the exception that replaced it. */
  datatype Result<+T> = Ok(value: T) | Err(error: Error) {

    predicate IsFailure() {
      Err?
    }

    function PropagateFailure<U>(): Result<U>
      requires Err?
    {
      Err(error)
    }

    function Extract(): T
      requires Ok?
    {
      value
    }
  }

  /** Python truthiness of an optional string: present and non-empty. */
  predicate Truthy(s: Option<string>) {
    s.Some? && s.value != ""
  }
}
