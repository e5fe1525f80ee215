/**
 * Describing a compute operation: the name is parsed as a full URI when
 * possible, otherwise the scope flag decides between a global, regional
 * and zonal operation; the reference's collection selects the operations
 * service the describer uses, and the get request is scoped to the
 * operation's region or zone.
 *
 * Parsing a full URI is a parameter: None stands for a name whose
 * collection the parser does not know. So are `regionName` and `zoneName`,
 * which reduce a `--region` or `--zone` value (a name or a URL) to the
 * region or zone name, as the scope prompter does.
 */
module OperationsDescribe {
  import opened Wrappers
  import opened Text
  import opened Commands
  import ScopePrompter

  /** An operation reference: its collection, name and scope attributes. */
  datatype OperationRef = OperationRef(collection: string, name: string, region: Option<string>, zone: Option<string>)

  /** The three operations services of the compute API. */
  datatype OperationsService = GlobalOperations | RegionOperations | ZoneOperations

  const GlobalCollection := "compute.globalOperations"
  const RegionCollection := "compute.regionOperations"
  const ZoneCollection := "compute.zoneOperations"

  const NoScopeMessage :=
    "Either pass in the full URI of an operation object or pass in [--global], [--region], or [--zone] when specifying just the operation name."
  const NotAnOperationMessage :=
    "You must pass in a reference to a global, regional, or zonal operation."

  /**
   * The reference for a bare name: `--global` first, then `--region`, then
   * `--zone`. A regional or zonal reference carries the name of the flag's
   * region or zone, as the prompter's regional and zonal references do.
   */
  function FallbackReference(name: string, global: bool, region: Option<string>, zone: Option<string>,
                             regionName: string -> string, zoneName: string -> string): (r: Result<OperationRef, CommandError>)
    ensures r.Err? <==> !global && !Truthy(region) && !Truthy(zone)
    ensures r.Err? ==> r.error == ToolException(NoScopeMessage)
    ensures r.Ok? ==> r.value.name == name
    ensures global ==> r == Ok(OperationRef(GlobalCollection, name, None, None))
    ensures !global && Truthy(region) ==>
      r == Ok(OperationRef(RegionCollection, name, Some(regionName(region.value)), None))
    ensures !global && !Truthy(region) && Truthy(zone) ==>
      r == Ok(OperationRef(ZoneCollection, name, None, Some(zoneName(zone.value))))
  {
    if global then Ok(OperationRef(GlobalCollection, name, None, None))
    else if Truthy(region) then Ok(OperationRef(RegionCollection, name, ScopePrompter.ScopeArgName(region, regionName), None))
    else if Truthy(zone) then Ok(OperationRef(ZoneCollection, name, None, ScopePrompter.ScopeArgName(zone, zoneName)))
    else Err(ToolException(NoScopeMessage))
  }

  /** The service for an operations collection, None for any other collection. */
  function ServiceFor(collection: string): (s: Option<OperationsService>)
    ensures s.Some? <==> collection in {GlobalCollection, RegionCollection, ZoneCollection}
  {
    if collection == GlobalCollection then Some(GlobalOperations)
    else if collection == RegionCollection then Some(RegionOperations)
    else if collection == ZoneCollection then Some(ZoneOperations)
    else None
  }

  /** Each operations service belongs to exactly one collection. */
  lemma ServiceMatchesCollection(collection: string)
    ensures ServiceFor(collection) == Some(GlobalOperations) <==> collection == GlobalCollection
    ensures ServiceFor(collection) == Some(RegionOperations) <==> collection == RegionCollection
    ensures ServiceFor(collection) == Some(ZoneOperations) <==> collection == ZoneCollection
  {
  }

  /** The reference the describer resolves, as a function of its inputs. */
  function ResolvedReference(name: string, global: bool, region: Option<string>, zone: Option<string>,
                             regionName: string -> string, zoneName: string -> string,
                             parsed: Option<OperationRef>): Result<OperationRef, CommandError>
  {
    var ref := if parsed.Some? then Ok(parsed.value) else FallbackReference(name, global, region, zone, regionName, zoneName);
    if ref.Err? then ref
    else if ServiceFor(ref.value.collection).None? then Err(ToolException(NotAnOperationMessage))
    else ref
  }

  /** The get request for an operation; the describer scopes it before sending. */
  class OperationGetRequest {
    const project: string
    const operation: string
    var region: Option<string>
    var zone: Option<string>

    constructor (project: string, operation: string)
      ensures this.project == project && this.operation == operation
      ensures region.None? && zone.None?
    {
      this.project := project;
      this.operation := operation;
      region := None;
      zone := None;
    }
  }

  /** The describer: the operations service is chosen while resolving the reference. */
  class Describe {
    var service: Option<OperationsService>

    constructor ()
      ensures service.None?
    {
      service := None;
    }

    /**
     * Resolves the reference and records the service of its collection;
     * on an error the service is left as it was.
     */
    method CreateReference(name: string, global: bool, region: Option<string>, zone: Option<string>,
                           regionName: string -> string, zoneName: string -> string,
                           parsed: Option<OperationRef>) returns (r: Result<OperationRef, CommandError>)
      modifies this
      ensures r == ResolvedReference(name, global, region, zone, regionName, zoneName, parsed)
      ensures r.Ok? ==> service == ServiceFor(r.value.collection) && service.Some?
      ensures r.Err? ==> service == old(service)
    {
      var ref: OperationRef;
      if parsed.Some? {
        ref := parsed.value;
      } else if global {
        ref := OperationRef(GlobalCollection, name, None, None);
      } else if Truthy(region) {
        ref := OperationRef(RegionCollection, name, ScopePrompter.ScopeArgName(region, regionName), None);
      } else if Truthy(zone) {
        ref := OperationRef(ZoneCollection, name, None, ScopePrompter.ScopeArgName(zone, zoneName));
      } else {
        return Err(ToolException(NoScopeMessage));
      }

      if ref.collection !in {GlobalCollection, RegionCollection, ZoneCollection} {
        return Err(ToolException(NotAnOperationMessage));
      }
      if ref.collection == GlobalCollection {
        service := Some(GlobalOperations);
      } else if ref.collection == RegionCollection {
        service := Some(RegionOperations);
      } else {
        service := Some(ZoneOperations);
      }
      return Ok(ref);
    }

    /** Scopes the request: the region for a regional operation, the zone for a zonal one, nothing otherwise. */
    method ScopeRequest(ref: OperationRef, request: OperationGetRequest)
      modifies request
      ensures ref.collection == RegionCollection ==> request.region == ref.region && request.zone == old(request.zone)
      ensures ref.collection == ZoneCollection ==> request.zone == ref.zone && request.region == old(request.region)
      ensures ref.collection != RegionCollection && ref.collection != ZoneCollection ==>
        request.region == old(request.region) && request.zone == old(request.zone)
    {
      if ref.collection == RegionCollection {
        request.region := ref.region;
      } else if ref.collection == ZoneCollection {
        request.zone := ref.zone;
      }
    }
  }

  /** A parsed full URI wins over the flags; only its collection is checked. */
  lemma ParsedReferenceWins(name: string, global: bool, region: Option<string>, zone: Option<string>,
                            regionName: string -> string, zoneName: string -> string, parsed: OperationRef)
    ensures ResolvedReference(name, global, region, zone, regionName, zoneName, Some(parsed)) ==
      if ServiceFor(parsed.collection).Some? then Ok(parsed) else Err(ToolException(NotAnOperationMessage))
  {
  }

  /** A bare name always resolves to an operation reference when some scope flag is given. */
  lemma FallbackIsAnOperation(name: string, global: bool, region: Option<string>, zone: Option<string>,
                              regionName: string -> string, zoneName: string -> string)
    ensures var r := ResolvedReference(name, global, region, zone, regionName, zoneName, None);
      && (r.Ok? <==> global || Truthy(region) || Truthy(zone))
      && (r.Ok? ==> ServiceFor(r.value.collection).Some? && r.value.name == name)
  {
  }
}
