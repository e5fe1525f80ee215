/**
 * What the command modules share: the errors a command raises, the
 * outcome of executing an API request, and the Cloud SQL references.
 */
module Commands {
  /**
   * How a command fails: a tool error with its message, an HTTP error
   * reported to the user, or an API client error that the command does not
   * catch and that therefore leaves it unchanged.
   */
  datatype CommandError = ToolException(message: string) | HttpException(message: string) | Uncaught(error: string)

  /** Executing an API request: the response, an HTTP error, or another API client error. */
  datatype Call<T> = Returned(value: T) | HttpError(error: string) | OtherError(error: string)

  /** A Cloud SQL instance, as parsed from `project:instance` or a plain instance name. */
  datatype SqlInstance = SqlInstance(project: string, instance: string)

  /** The operation a SQL command hands back: the instance and the operation id from the response. */
  datatype SqlOperation = SqlOperation(instance: SqlInstance, operation: string)
}
