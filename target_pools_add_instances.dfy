/**
 * Adding instances to a target pool: every instance is named by its
 * self-link in one request, and all instances must lie in one region, the
 * region of the pool.
 *
 * The instance references (one per `--instances` name, in order) and the
 * mapping from a zone name to its region are computed elsewhere and are
 * parameters here. So is the pool's reference: `regionName` reduces a
 * region value to the region's name, as the scope prompter does with a
 * `--region` value, and `poolRef` is the reference the prompter resolves
 * for the pool's name and that region name.
 */
module TargetPoolsAddInstances {
  import opened Wrappers
  import opened Text
  import opened Commands
  import ScopePrompter

  /** A resolved instance reference: its self-link and its zone. */
  datatype InstanceRef = InstanceRef(selfLink: string, zone: string)

  /** A resolved target pool reference: its name and its region attribute. */
  datatype PoolRef = PoolRef(name: string, region: Option<string>)

  /** `ComputeTargetPoolsAddInstanceRequest`, with the instances as their self-links. */
  datatype AddInstanceRequest = AddInstanceRequest(region: Option<string>, project: string, targetPool: string, instances: seq<string>)

  const MixedRegionsMessage := "Instances must all be in the same region as the target pool."

  /** The self-links of the references, in order. */
  function SelfLinks(refs: seq<InstanceRef>): (links: seq<string>)
    ensures |links| == |refs|
    ensures forall i :: 0 <= i < |refs| ==> links[i] == refs[i].selfLink
  {
    seq(|refs|, i requires 0 <= i < |refs| => refs[i].selfLink)
  }

  /** The distinct regions of the instances' zones. */
  function Regions(refs: seq<InstanceRef>, zoneToRegion: string -> string): set<string>
  {
    set i | 0 <= i < |refs| :: zoneToRegion(refs[i].zone)
  }

  /** The pool's reference: its name resolved in the region that the instances' region names. */
  function PoolReference(poolName: string, region: string, regionName: string -> string,
                         poolRef: (string, Option<string>) -> PoolRef): PoolRef
  {
    poolRef(poolName, ScopePrompter.ScopeArgName(Some(region), regionName))
  }

  /**
   * The requests the command sends. At least one instance is given (the
   * flag takes one or more values). The request names the pool, and is
   * placed in the region, of the pool's reference.
   */
  function CreateRequests(project: string, poolName: string, refs: seq<InstanceRef>,
                          zoneToRegion: string -> string, regionName: string -> string,
                          poolRef: (string, Option<string>) -> PoolRef): (r: Result<seq<AddInstanceRequest>, CommandError>)
    requires |refs| > 0
    ensures r.Ok? <==> |Regions(refs, zoneToRegion)| == 1
    ensures r.Err? ==> r.error == ToolException(MixedRegionsMessage)
    ensures r.Ok? ==>
      var region := zoneToRegion(refs[0].zone);
      var pool := PoolReference(poolName, region, regionName, poolRef);
      && |r.value| == 1
      && Regions(refs, zoneToRegion) == {region}
      && r.value[0].region == pool.region
      && r.value[0].project == project
      && r.value[0].targetPool == pool.name
      && |r.value[0].instances| == |refs|
      && forall i :: 0 <= i < |refs| ==> r.value[0].instances[i] == refs[i].selfLink
  {
    var regions := Regions(refs, zoneToRegion);
    var region := zoneToRegion(refs[0].zone);
    assert region in regions;
    if |regions| > 1 then
      Err(ToolException(MixedRegionsMessage))
    else
      SingletonRegion(regions, region);
      var pool := PoolReference(poolName, region, regionName, poolRef);
      Ok([AddInstanceRequest(pool.region, project, pool.name, SelfLinks(refs))])
  }

  /**
   * For a pool given by a bare name, whose reference keeps that name and
   * takes the region it is given, the request names the pool and is placed
   * in the instances' region, reduced to its name.
   */
  lemma BareNamedPool(project: string, poolName: string, refs: seq<InstanceRef>,
                      zoneToRegion: string -> string, regionName: string -> string,
                      poolRef: (string, Option<string>) -> PoolRef)
    requires |refs| > 0
    requires zoneToRegion(refs[0].zone) != ""
    requires forall region :: poolRef(poolName, region) == PoolRef(poolName, region)
    ensures var r := CreateRequests(project, poolName, refs, zoneToRegion, regionName, poolRef);
      r.Ok? ==>
        && r.value[0].targetPool == poolName
        && r.value[0].region == Some(regionName(zoneToRegion(refs[0].zone)))
  {
    var scopeArg := ScopePrompter.ScopeArgName(Some(zoneToRegion(refs[0].zone)), regionName);
    assert poolRef(poolName, scopeArg) == PoolRef(poolName, scopeArg);
  }

  lemma SingletonRegion(regions: set<string>, region: string)
    requires region in regions && |regions| <= 1
    ensures regions == {region}
  {
    var rest := regions - {region};
    assert |regions| == |rest| + 1;
  }

  /** The request is refused exactly when two instances lie in zones of different regions. */
  lemma MixedRegionsRefused(project: string, poolName: string, refs: seq<InstanceRef>, zoneToRegion: string -> string,
                            regionName: string -> string, poolRef: (string, Option<string>) -> PoolRef)
    requires |refs| > 0
    ensures CreateRequests(project, poolName, refs, zoneToRegion, regionName, poolRef).Err? <==>
      exists i, j :: 0 <= i < |refs| && 0 <= j < |refs| && zoneToRegion(refs[i].zone) != zoneToRegion(refs[j].zone)
  {
    var regions := Regions(refs, zoneToRegion);
    var region := zoneToRegion(refs[0].zone);
    assert region in regions;
    if |regions| > 1 {
      var other :| other in regions - {region} by {
        assert |regions - {region}| == |regions| - 1;
      }
      var j :| 0 <= j < |refs| && zoneToRegion(refs[j].zone) == other;
      assert zoneToRegion(refs[0].zone) != zoneToRegion(refs[j].zone);
    } else {
      SingletonRegion(regions, region);
      forall i, j | 0 <= i < |refs| && 0 <= j < |refs|
        ensures zoneToRegion(refs[i].zone) == zoneToRegion(refs[j].zone)
      {
        assert zoneToRegion(refs[i].zone) in regions;
        assert zoneToRegion(refs[j].zone) in regions;
      }
    }
  }
}
