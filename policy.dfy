/** The two enumerations callers pass to the registry. They carry no logic of their own. */
module Policy {

  /** What a thread other than the key's owner does when the key's permit is taken. */
  datatype ConcurrencyAction =
    | Wait   // queue on the key until a permit is released
    | Error  // fail at once with the registry's single error

  /** When a deferred release would run inside an enclosing unit of work.
      The registry accepts it and does nothing with it. */
  datatype ConcurrencyUnblock =
    | BeforeCommit
    | AfterCompletion
}
