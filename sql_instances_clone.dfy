/**
 * Cloning a Cloud SQL instance: the source and the clone must be in the
 * same project, and a binary-log coordinate is given with both its file
 * name and its position or not at all. The request goes to the clone's
 * project and carries the clone context.
 *
 * The command assembles the context as JSON text and parses it back; the
 * model keeps the record that text denotes. Parsing the instance
 * arguments into references and executing the request are parameters.
 */
module SqlInstancesClone {
  import opened Wrappers
  import opened Text
  import opened Commands

  /** The binary-log position, sent as the JSON string of the number. */
  datatype BinLogCoordinates = BinLogCoordinates(kind: string, binLogFileName: string, binLogPosition: string)

  datatype CloneContext = CloneContext(
    kind: string,
    sourceInstanceName: string,
    destinationInstanceName: string,
    binLogCoordinates: Option<BinLogCoordinates>)

  /** `instances().clone(project=…, body={"cloneContext": …})`. */
  datatype CloneRequest = CloneRequest(project: string, cloneContext: CloneContext)

  const CloneContextKind := "sql#cloneContext"
  const BinLogCoordinatesKind := "sql#binLogCoordinates"

  const BinLogMessage :=
    "Both --bin-log-file and --bin-log-file-name must be specified to represent a valid binary log coordinate up to which the source is cloned."

  function ProjectMismatchMessage(src: string, dest: string): string
  {
    "The source and the clone instance must belong to the same project: \"" + src + "\" != \"" + dest + "\"."
  }

  /**
   * The validated clone request. The project check comes first; a
   * bin-log file name without a non-zero position, or the reverse, is an
   * error.
   */
  function CloneRequestFor(source: SqlInstance, destination: SqlInstance,
                           binLogFileName: Option<string>, binLogPosition: Option<int>): (r: Result<CloneRequest, CommandError>)
    ensures source.project != destination.project ==>
      r == Err(ToolException(ProjectMismatchMessage(source.project, destination.project)))
    ensures source.project == destination.project && Truthy(binLogFileName) != IntTruthy(binLogPosition) ==>
      r == Err(ToolException(BinLogMessage))
    ensures r.Ok? <==> source.project == destination.project && Truthy(binLogFileName) == IntTruthy(binLogPosition)
    ensures r.Ok? ==>
      && r.value.project == destination.project
      && r.value.cloneContext.kind == CloneContextKind
      && r.value.cloneContext.sourceInstanceName == source.instance
      && r.value.cloneContext.destinationInstanceName == destination.instance
      && (r.value.cloneContext.binLogCoordinates.Some? <==> Truthy(binLogFileName))
  {
    if source.project != destination.project then
      Err(ToolException(ProjectMismatchMessage(source.project, destination.project)))
    else
      var context := CloneContext(CloneContextKind, source.instance, destination.instance, None);
      if Truthy(binLogFileName) && IntTruthy(binLogPosition) then
        var coordinates := BinLogCoordinates(BinLogCoordinatesKind, binLogFileName.value, IntToString(binLogPosition.value));
        Ok(CloneRequest(destination.project, context.(binLogCoordinates := Some(coordinates))))
      else if Truthy(binLogFileName) || IntTruthy(binLogPosition) then
        Err(ToolException(BinLogMessage))
      else
        Ok(CloneRequest(destination.project, context))
  }

  /** The coordinates sent carry the given file name, and the position reads back as the given number. */
  lemma BinLogCoordinatesCarried(source: SqlInstance, destination: SqlInstance, fileName: string, position: int)
    requires source.project == destination.project && fileName != "" && position != 0
    ensures var r := CloneRequestFor(source, destination, Some(fileName), Some(position));
      && r.Ok? && r.value.cloneContext.binLogCoordinates.Some?
      && r.value.cloneContext.binLogCoordinates.value.kind == BinLogCoordinatesKind
      && r.value.cloneContext.binLogCoordinates.value.binLogFileName == fileName
      && ParseInt(r.value.cloneContext.binLogCoordinates.value.binLogPosition) == Some(position)
  {
    ParseIntToString(position);
  }

  /** Position 0 counts as no position: with a file name it is refused, and alone it is ignored. */
  lemma ZeroPositionIsAbsent(source: SqlInstance, destination: SqlInstance, fileName: Option<string>)
    requires source.project == destination.project
    ensures CloneRequestFor(source, destination, fileName, Some(0)) == CloneRequestFor(source, destination, fileName, None)
  {
  }

  /**
   * The command: validate, execute the request, and hand back the clone's
   * operation. HTTP errors are reported as such, other API errors as tool
   * errors.
   */
  function Run(source: SqlInstance, destination: SqlInstance,
               binLogFileName: Option<string>, binLogPosition: Option<int>,
               execute: CloneRequest -> Call<string>): (r: Result<SqlOperation, CommandError>)
    ensures CloneRequestFor(source, destination, binLogFileName, binLogPosition).Err? ==>
      r == Err(CloneRequestFor(source, destination, binLogFileName, binLogPosition).error)
    ensures r.Ok? ==>
      && CloneRequestFor(source, destination, binLogFileName, binLogPosition).Ok?
      && execute(CloneRequestFor(source, destination, binLogFileName, binLogPosition).value).Returned?
      && r.value.instance == destination
    ensures r.Err? ==> !r.error.Uncaught?
    ensures var request := CloneRequestFor(source, destination, binLogFileName, binLogPosition);
      request.Ok? ==>
        var call := execute(request.value);
        && (call.Returned? ==> r == Ok(SqlOperation(destination, call.value)))
        && (call.HttpError? ==> r == Err(HttpException(call.error)))
        && (call.OtherError? ==> r == Err(ToolException(call.error)))
  {
    match CloneRequestFor(source, destination, binLogFileName, binLogPosition)
    case Err(e) => Err(e)
    case Ok(request) =>
      match execute(request)
      case Returned(operation) => Ok(SqlOperation(destination, operation))
      case HttpError(error) => Err(HttpException(error))
      case OtherError(error) => Err(ToolException(error))
  }
}
