/** Two independent counters with strict limits: consecutive retries and consecutive tool errors. */
module ErrorTracker {

  class ErrorTracker {
    var retries: int
    var toolErrors: int
    const maxRetries: int
    const maxToolErrors: int

    constructor (maxRetries: int, maxToolErrors: int)
      ensures this.maxRetries == maxRetries && this.maxToolErrors == maxToolErrors
      ensures retries == 0 && toolErrors == 0
    {
      this.maxRetries, this.maxToolErrors := maxRetries, maxToolErrors;
      retries, toolErrors := 0, 0;
    }

    method RecordRetry()
      modifies this`retries
      ensures retries == old(retries) + 1
    {
      retries := retries + 1;
    }

    method ResetRetries()
      modifies this`retries
      ensures retries == 0
    {
      retries := 0;
    }

    /** A soft error is not counted, and success does not reset the count. */
    method RecordResult(success: bool, isSoftError: bool)
      modifies this`toolErrors
      ensures toolErrors == old(toolErrors) + if !success && !isSoftError then 1 else 0
    {
      if !success && !isSoftError {
        toolErrors := toolErrors + 1;
      }
    }

    method ResetErrors()
      modifies this`toolErrors
      ensures toolErrors == 0
    {
      toolErrors := 0;
    }

    predicate RetriesExhausted()
      reads this
    {
      retries > maxRetries
    }

    predicate ToolErrorsExhausted()
      reads this
    {
      toolErrors > maxToolErrors
    }
  }
}
