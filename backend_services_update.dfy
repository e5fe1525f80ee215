/**
 * Partial update of a backend service: the command refuses to run unless
 * at least one property flag is given, and builds the replacement resource
 * by copying the existing one and overwriting the flagged fields one by one.
 *
 * The self-link of a health-check reference is computed elsewhere and is a
 * parameter here.
 */
module BackendServicesUpdate {
  import opened Wrappers
  import opened Text

  /** The property flags of the command; None is a flag that was not given. */
  datatype UpdateArgs = UpdateArgs(
    description: Option<string>,
    httpHealthCheck: Option<string>,
    timeout: Option<int>,
    port: Option<int>,
    portName: Option<string>)

  /** The fields of a backend service resource. */
  datatype ServiceFields = ServiceFields(
    name: string,
    description: Option<string>,
    backends: seq<string>,
    healthChecks: seq<string>,
    timeoutSec: Option<int>,
    port: Option<int>,
    portName: Option<string>,
    fingerprint: Option<string>)

  /** A backend service resource, updated in place one field at a time. */
  class BackendService {
    var name: string
    var description: Option<string>
    var backends: seq<string>
    var healthChecks: seq<string>
    var timeoutSec: Option<int>
    var port: Option<int>
    var portName: Option<string>
    var fingerprint: Option<string>

    function Fields(): ServiceFields
      reads this
    {
      ServiceFields(name, description, backends, healthChecks, timeoutSec, port, portName, fingerprint)
    }

    /** A deep copy of `existing`: a new resource with the same fields. */
    constructor Copy(existing: BackendService)
      ensures Fields() == existing.Fields()
    {
      name := existing.name;
      description := existing.description;
      backends := existing.backends;
      healthChecks := existing.healthChecks;
      timeoutSec := existing.timeoutSec;
      port := existing.port;
      portName := existing.portName;
      fingerprint := existing.fingerprint;
    }
  }

  /**
   * The replacement for `existing` under `args`, where `link` is the
   * self-link of the given health check.
   */
  function Modified(args: UpdateArgs, existing: ServiceFields, link: string): ServiceFields
  {
    existing.(
      description :=
        if Truthy(args.description) then args.description
        else if args.description.Some? then None
        else existing.description,
      healthChecks := if Truthy(args.httpHealthCheck) then [link] else existing.healthChecks,
      timeoutSec := if IntTruthy(args.timeout) then args.timeout else existing.timeoutSec,
      port := if IntTruthy(args.port) then args.port else existing.port,
      portName :=
        if Truthy(args.portName) then args.portName
        else if !Truthy(existing.portName) then None
        else existing.portName)
  }

  /**
   * Builds the replacement on a copy of `existing`; `existing` itself is
   * left as it was.
   */
  method Modify(args: UpdateArgs, existing: BackendService, healthCheckLink: string -> string)
    returns (replacement: BackendService)
    ensures fresh(replacement)
    ensures replacement.Fields() ==
      Modified(args, existing.Fields(), if args.httpHealthCheck.Some? then healthCheckLink(args.httpHealthCheck.value) else "")
  {
    replacement := new BackendService.Copy(existing);

    if Truthy(args.description) {
      replacement.description := args.description;
    } else if args.description.Some? {
      replacement.description := None;
    }

    if Truthy(args.httpHealthCheck) {
      replacement.healthChecks := [healthCheckLink(args.httpHealthCheck.value)];
    }

    if IntTruthy(args.timeout) {
      replacement.timeoutSec := args.timeout;
    }

    if IntTruthy(args.port) {
      replacement.port := args.port;
    }

    if Truthy(args.portName) {
      replacement.portName := args.portName;
    } else if !Truthy(existing.portName) {
      replacement.portName := None;
    }
  }

  /** The update, seen field by field. */
  lemma ModifiedFields(args: UpdateArgs, existing: ServiceFields, link: string)
    ensures var r := Modified(args, existing, link);
      // identity, backends and fingerprint are never touched
      && r.name == existing.name && r.backends == existing.backends && r.fingerprint == existing.fingerprint
      // a non-empty description is set, '' clears it, no flag keeps it
      && (Truthy(args.description) ==> r.description == args.description)
      && (args.description == Some("") ==> r.description.None?)
      && (args.description.None? ==> r.description == existing.description)
      // a health check replaces the whole list by its one link
      && (Truthy(args.httpHealthCheck) ==> r.healthChecks == [link])
      && (!Truthy(args.httpHealthCheck) ==> r.healthChecks == existing.healthChecks)
      // a non-zero timeout or port is set; otherwise the old value stays
      && (IntTruthy(args.timeout) ==> r.timeoutSec == args.timeout)
      && (!IntTruthy(args.timeout) ==> r.timeoutSec == existing.timeoutSec)
      && (IntTruthy(args.port) ==> r.port == args.port)
      && (!IntTruthy(args.port) ==> r.port == existing.port)
  {
  }

  /** A port name is never left empty: it is the given one, the existing non-empty one, or None. */
  lemma ModifiedPortName(args: UpdateArgs, existing: ServiceFields, link: string)
    ensures var r := Modified(args, existing, link);
      && r.portName != Some("")
      && (Truthy(args.portName) ==> r.portName == args.portName)
      && (!Truthy(args.portName) && Truthy(existing.portName) ==> r.portName == existing.portName)
      && (!Truthy(args.portName) && !Truthy(existing.portName) ==> r.portName.None?)
  {
  }

  /** Applying the same update to its own result changes nothing more. */
  lemma ModifiedIdempotent(args: UpdateArgs, existing: ServiceFields, link: string)
    ensures Modified(args, Modified(args, existing, link), link) == Modified(args, existing, link)
  {
  }

  const NothingToModify := "At least one property must be modified."

  /** The flags the command accepts as a request for change. */
  predicate RequestsChange(args: UpdateArgs)
  {
    || args.description.Some?
    || Truthy(args.httpHealthCheck)
    || args.timeout.Some?
    || IntTruthy(args.port)
    || Truthy(args.portName)
  }

  /** The guard of the command: without any property flag it fails before fetching the resource. */
  function CheckArgs(args: UpdateArgs): (r: Result<UpdateArgs, string>)
    ensures r.Err? <==>
      && args.description.None? && !Truthy(args.httpHealthCheck) && args.timeout.None?
      && !IntTruthy(args.port) && !Truthy(args.portName)
    ensures r.Err? ==> r.error == NothingToModify
    ensures r.Ok? ==> r.value == args
  {
    if RequestsChange(args) then Ok(args) else Err(NothingToModify)
  }

  /** The no-flag update: only the port name is normalised. */
  const NoFlags := UpdateArgs(None, None, None, None, None)

  /** Whatever the guard refuses would have been the no-flag update. */
  lemma RefusedArgsChangeNothing(args: UpdateArgs, existing: ServiceFields, link: string)
    requires CheckArgs(args).Err?
    ensures Modified(args, existing, link) == Modified(NoFlags, existing, link)
  {
  }

  /** A timeout of 0 passes the guard, yet the replacement is the no-flag update. */
  lemma ZeroTimeoutAcceptedButIgnored(existing: ServiceFields, link: string)
    ensures CheckArgs(NoFlags.(timeout := Some(0))).Ok?
    ensures Modified(NoFlags.(timeout := Some(0)), existing, link) == Modified(NoFlags, existing, link)
  {
  }
}
