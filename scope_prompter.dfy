/**
 * Scope resolution for zonal, regional and global compute resources: every
 * name becomes a reference; references whose zone or region is unknown are
 * ambiguous, and when neither a flag nor a configured default settles them
 * the user is asked once, and the one answer is given to all of them.
 *
 * Parsing a name into a reference, looking up a configured default, listing
 * the candidate zones or regions and the interactive prompt belong to other
 * modules; they enter here as parameters.
 */
module ScopePrompter {
  import opened Wrappers
  import opened Text

  /** A resource reference: its name, its collection, the value of its scope attribute and whether it was resolved. */
  class ResourceRef {
    const name: string
    const collection: string
    var scope: Option<string>
    var resolved: bool

    constructor (name: string, collection: string, scope: Option<string>)
      ensures this.name == name && this.collection == collection
      ensures this.scope == scope && !resolved
    {
      this.name := name;
      this.collection := collection;
      this.scope := scope;
      resolved := false;
    }

    /** Marks the reference resolved, filling an unset scope from the configured default when there is one. */
    method Resolve(default: Option<string>)
      modifies this
      ensures resolved && scope == Settled(old(scope), default)
    {
      if !Truthy(scope) && default.Some? {
        scope := default;
      }
      resolved := true;
    }
  }

  /** The scope a reference keeps once resolved: an unset scope takes the default, if one is configured. */
  function Settled(scope: Option<string>, default: Option<string>): Option<string>
  {
    if !Truthy(scope) && default.Some? then default else scope
  }

  /** The two ways resolution fails: a tool error carrying the listing errors, or an out-of-range choice. */
  datatype Failure = ToolException(errors: seq<string>, message: string) | IndexError

  /** What listing the zones or regions returned: the resource names and the errors met on the way. */
  datatype Listing = Listing(names: seq<string>, errors: seq<string>)

  /** The collection a resource type lives in; a missing or empty type falls back to the command's own type. */
  function GetCollection(resourceType: Option<string>, defaultType: string): (c: string)
    ensures resourceType == Some("zoneViews") ==> c == "resourceviews.zoneViews"
    ensures resourceType != Some("zoneViews") ==> StartsWith(c, "compute.")
    ensures resourceType != Some("zoneViews") && Truthy(resourceType) ==> c[|"compute."|..] == resourceType.value
    ensures !Truthy(resourceType) ==> c[|"compute."|..] == defaultType
  {
    if resourceType == Some("zoneViews") then "resourceviews.zoneViews"
    else if Truthy(resourceType) then "compute." + resourceType.value
    else "compute." + defaultType
  }

  /** The server-side filter for the listing: names starting with the given prefix, or no filter at all. */
  function FilterExpr(prefixFilter: Option<string>): (f: Option<string>)
    ensures f.Some? <==> Truthy(prefixFilter)
    ensures f.Some? ==> StartsWith(f.value, "name eq ") && EndsWith(f.value, ".*")
    ensures f.Some? ==> |f.value| == |"name eq "| + |prefixFilter.value| + 2
    ensures f.Some? ==> f.value[|"name eq "|..|f.value| - 2] == prefixFilter.value
  {
    if Truthy(prefixFilter) then Some("name eq " + prefixFilter.value + ".*") else None
  }

  /**
   * The names to choose from. Any listing error, or an empty listing, is a
   * tool error suggesting the flag; the message ends in `:` when errors
   * follow it and in `.` otherwise.
   */
  function FetchChoices(attribute: string, flagName: string, prefixFilter: Option<string>,
                        list: Option<string> -> Listing): (r: Result<seq<string>, Failure>)
    ensures var listing := list(FilterExpr(prefixFilter));
      && (r.Ok? <==> listing.errors == [] && listing.names != [])
      && (r.Ok? ==> r.value == listing.names)
      && (r.Err? ==> r.error.ToolException? && r.error.errors == listing.errors)
      && (r.Err? ==> StartsWith(r.error.message, "Unable to fetch a list of " + attribute + "s."))
      && (r.Err? ==> EndsWith(r.error.message, if listing.errors != [] then ":" else "."))
  {
    var listing := list(FilterExpr(prefixFilter));
    if listing.errors != [] || listing.names == [] then
      var punctuation := if listing.errors != [] then ":" else ".";
      var message := "Unable to fetch a list of " + attribute + "s. Specifying [" + flagName
        + "] may fix this issue" + punctuation;
      assert message[..|"Unable to fetch a list of " + attribute + "s."|] == "Unable to fetch a list of " + attribute + "s.";
      Err(ToolException(listing.errors, message))
    else
      Ok(listing.names)
  }

  /** The message shown when no choice was made. */
  function PromptFailedMessage(flagName: string): string
  {
    "Unable to prompt. Specify the [" + flagName + "] flag."
  }

  /**
   * Asks once for a value among the fetched choices and gives that value to
   * every ambiguous reference. `choose` stands for the interactive prompt:
   * the index picked among the options, or nothing when no answer came.
   */
  method PromptForScope(ambiguous: seq<ResourceRef>, attribute: string, flagName: string,
                        prefixFilter: Option<string>, list: Option<string> -> Listing,
                        choose: seq<string> -> Option<nat>)
    returns (r: Result<string, Failure>)
    modifies set x | x in ambiguous
    ensures var fetched := FetchChoices(attribute, flagName, prefixFilter, list);
      && (r.Ok? <==> fetched.Ok? && choose(fetched.value).Some? && choose(fetched.value).value < |fetched.value|)
      && (r.Ok? ==> r.value == fetched.value[choose(fetched.value).value])
      && (fetched.Err? ==> r == Err(fetched.error))
      && (fetched.Ok? && choose(fetched.value).None? ==> r == Err(ToolException([], PromptFailedMessage(flagName))))
      && (fetched.Ok? && choose(fetched.value).Some? && choose(fetched.value).value >= |fetched.value| ==>
            r == Err(IndexError))
    ensures r.Ok? ==> forall x :: x in ambiguous ==> x.scope == Some(r.value)
    ensures r.Err? ==> forall x :: x in ambiguous ==> x.scope == old(x.scope)
    ensures forall x :: x in ambiguous ==> x.resolved == old(x.resolved)
  {
    var fetched := FetchChoices(attribute, flagName, prefixFilter, list);
    if fetched.Err? {
      return Err(fetched.error);
    }
    var choices := fetched.value;
    var idx := choose(choices);
    if idx.None? {
      return Err(ToolException([], PromptFailedMessage(flagName)));
    }
    if idx.value >= |choices| {
      return Err(IndexError);
    }
    var choice := choices[idx.value];
    var i := 0;
    while i < |ambiguous|
      invariant 0 <= i <= |ambiguous|
      invariant forall k :: 0 <= k < i ==> ambiguous[k].scope == Some(choice)
      invariant forall x :: x in ambiguous ==> x.resolved == old(x.resolved)
    {
      ambiguous[i].scope := Some(choice);
      i := i + 1;
    }
    return Ok(choice);
  }

  /** The scope value parsing found for each name, before any prompt. */
  function ParsedScopes(names: seq<string>, collection: string, scopeArg: Option<string>,
                        parse: (string, string, Option<string>) -> Option<string>): (scopes: seq<Option<string>>)
    ensures |scopes| == |names|
    ensures forall i :: 0 <= i < |names| ==> scopes[i] == parse(names[i], collection, scopeArg)
  {
    seq(|names|, i requires 0 <= i < |names| => parse(names[i], collection, scopeArg))
  }


  /** A prompt is needed when some scope is unknown and neither a flag value nor a default supplies it. */
  predicate NeedsPrompt(scopes: seq<Option<string>>, scopeArg: Option<string>, hasDefault: bool)
  {
    (exists i :: 0 <= i < |scopes| && !Truthy(scopes[i])) && !Truthy(scopeArg) && !hasDefault
  }

  /**
   * The scopes a batch of references ends with, one per parsed scope, or the
   * error that stops it. Without a prompt every reference keeps its parsed
   * scope, an unknown one filled from the default. With a prompt the fetched
   * choices are offered once, and the one answer becomes the scope of every
   * reference whose scope is unknown.
   */
  function ScopedOutcome(scopes: seq<Option<string>>, scopeArg: Option<string>, default: Option<string>,
                         fetched: Result<seq<string>, Failure>, choose: seq<string> -> Option<nat>,
                         flagName: string): Result<seq<Option<string>>, Failure>
  {
    if !NeedsPrompt(scopes, scopeArg, default.Some?) then
      Ok(seq(|scopes|, i requires 0 <= i < |scopes| => Settled(scopes[i], default)))
    else if fetched.Err? then Err(fetched.error)
    else if choose(fetched.value).None? then Err(ToolException([], PromptFailedMessage(flagName)))
    else if choose(fetched.value).value >= |fetched.value| then Err(IndexError)
    else
      var choice := Some(fetched.value[choose(fetched.value).value]);
      Ok(seq(|scopes|, i requires 0 <= i < |scopes| => if Truthy(scopes[i]) then scopes[i] else choice))
  }

  /** Every reference gets a scope, and a scope that parsing found is never replaced. */
  lemma OutcomeKeepsKnownScopes(scopes: seq<Option<string>>, scopeArg: Option<string>, default: Option<string>,
                                fetched: Result<seq<string>, Failure>, choose: seq<string> -> Option<nat>,
                                flagName: string)
    ensures var r := ScopedOutcome(scopes, scopeArg, default, fetched, choose, flagName);
      r.Ok? ==> |r.value| == |scopes| && forall i :: 0 <= i < |scopes| && Truthy(scopes[i]) ==> r.value[i] == scopes[i]
  {
  }

  /** Only a prompt can fail: with a flag value, a default, or no unknown scope the batch always settles. */
  lemma OutcomeFailsOnlyWhenPrompting(scopes: seq<Option<string>>, scopeArg: Option<string>, default: Option<string>,
                                      fetched: Result<seq<string>, Failure>, choose: seq<string> -> Option<nat>,
                                      flagName: string)
    ensures ScopedOutcome(scopes, scopeArg, default, fetched, choose, flagName).Err? ==>
      NeedsPrompt(scopes, scopeArg, default.Some?)
  {
  }

  /** Without a prompt, a configured default settles every unknown scope. */
  lemma OutcomeUsesDefault(scopes: seq<Option<string>>, scopeArg: Option<string>, default: Option<string>,
                           fetched: Result<seq<string>, Failure>, choose: seq<string> -> Option<nat>,
                           flagName: string)
    requires default.Some?
    ensures var r := ScopedOutcome(scopes, scopeArg, default, fetched, choose, flagName);
      r.Ok? && forall i :: 0 <= i < |scopes| && !Truthy(scopes[i]) ==> r.value[i] == default
  {
  }

  /**
   * A prompt is answered once: a single name from the fetched choices
   * becomes the scope of every reference whose scope was unknown.
   */
  lemma OutcomeOneAnswerForAll(scopes: seq<Option<string>>, scopeArg: Option<string>, default: Option<string>,
                               fetched: Result<seq<string>, Failure>, choose: seq<string> -> Option<nat>,
                               flagName: string)
    requires NeedsPrompt(scopes, scopeArg, default.Some?)
    requires ScopedOutcome(scopes, scopeArg, default, fetched, choose, flagName).Ok?
    ensures fetched.Ok?
    ensures var r := ScopedOutcome(scopes, scopeArg, default, fetched, choose, flagName);
      exists c :: c in fetched.value && forall i :: 0 <= i < |scopes| && !Truthy(scopes[i]) ==> r.value[i] == Some(c)
  {
    var c := fetched.value[choose(fetched.value).value];
    assert c in fetched.value;
  }

  /** Resolved references matching names, a collection and the scopes they settle on. */
  predicate Settles(refs: seq<ResourceRef>, names: seq<string>, collection: string, scopes: seq<Option<string>>)
    reads set x | x in refs
  {
    && |refs| == |names| == |scopes|
    && (forall i :: 0 <= i < |refs| ==>
          refs[i].resolved && refs[i].name == names[i] && refs[i].collection == collection && refs[i].scope == scopes[i])
    && (forall i, j :: 0 <= i < j < |refs| ==> refs[i] != refs[j])
  }

  /**
   * One resolved reference per name, in order. `parse` gives the scope value
   * the resource registry finds for a name, a collection and the flag value;
   * `default` is the configured default of the scope, if there is one.
   */
  method CreateScopedReferences(names: seq<string>, attribute: string, scopeArg: Option<string>,
                                resourceType: Option<string>, defaultType: string, flagName: string,
                                prefixFilter: Option<string>,
                                parse: (string, string, Option<string>) -> Option<string>,
                                default: Option<string>, list: Option<string> -> Listing,
                                choose: seq<string> -> Option<nat>)
    returns (r: Result<seq<ResourceRef>, Failure>)
    ensures var collection := GetCollection(resourceType, defaultType);
      var outcome := ScopedOutcome(ParsedScopes(names, collection, scopeArg, parse), scopeArg, default,
                                   FetchChoices(attribute, flagName, prefixFilter, list), choose, flagName);
      && (r.Ok? <==> outcome.Ok?)
      && (r.Err? ==> r.error == outcome.error)
      && (r.Ok? ==> Settles(r.value, names, collection, outcome.value))
    ensures r.Ok? ==> forall i :: 0 <= i < |r.value| ==> fresh(r.value[i])
  {
    var collection := GetCollection(resourceType, defaultType);
    ghost var scopes := ParsedScopes(names, collection, scopeArg, parse);
    ghost var fetched := FetchChoices(attribute, flagName, prefixFilter, list);
    ghost var outcome := ScopedOutcome(scopes, scopeArg, default, fetched, choose, flagName);
    var refs, ambiguous := NewReferences(names, collection, scopeArg, parse);
    if ambiguous != [] && !Truthy(scopeArg) && default.None? {
      assert NeedsPrompt(scopes, scopeArg, default.Some?) by {
        assert ambiguous[0] in refs;
        var i :| 0 <= i < |refs| && refs[i] == ambiguous[0];
        assert !Truthy(scopes[i]);
      }
      var chosen := PromptForScope(ambiguous, attribute, flagName, prefixFilter, list, choose);
      if chosen.Err? {
        return Err(chosen.error);
      }
      forall i | 0 <= i < |names|
        ensures refs[i].scope == outcome.value[i]
      {
        if refs[i] in ambiguous {
          assert !Truthy(scopes[i]);
        }
      }
    } else if ambiguous == [] {
      forall i | 0 <= i < |names|
        ensures Truthy(scopes[i])
      {
        assert refs[i] !in ambiguous;
      }
    }
    ResolveAll(refs, default);
    return Ok(refs);
  }

  /** A fresh, unresolved reference per name carrying its parsed scope, and those whose scope is unknown. */
  method NewReferences(names: seq<string>, collection: string, scopeArg: Option<string>,
                       parse: (string, string, Option<string>) -> Option<string>)
    returns (refs: seq<ResourceRef>, ambiguous: seq<ResourceRef>)
    ensures |refs| == |names|
    ensures forall i :: 0 <= i < |names| ==>
      && fresh(refs[i]) && !refs[i].resolved
      && refs[i].name == names[i] && refs[i].collection == collection
      && refs[i].scope == parse(names[i], collection, scopeArg)
    ensures forall i, j :: 0 <= i < j < |names| ==> refs[i] != refs[j]
    ensures forall i :: 0 <= i < |refs| ==> (refs[i] in ambiguous <==> !Truthy(refs[i].scope))
    ensures forall x :: x in ambiguous ==> x in refs
  {
    refs, ambiguous := [], [];
    var k := 0;
    while k < |names|
      invariant 0 <= k <= |names|
      invariant |refs| == k
      invariant forall i :: 0 <= i < k ==>
        && fresh(refs[i]) && !refs[i].resolved
        && refs[i].name == names[i] && refs[i].collection == collection
        && refs[i].scope == parse(names[i], collection, scopeArg)
      invariant forall i, j :: 0 <= i < j < k ==> refs[i] != refs[j]
      invariant forall i :: 0 <= i < k ==> (refs[i] in ambiguous <==> !Truthy(refs[i].scope))
      invariant forall x :: x in ambiguous ==> x in refs
    {
      var ref := new ResourceRef(names[k], collection, parse(names[k], collection, scopeArg));
      refs := refs + [ref];
      if !Truthy(ref.scope) {
        ambiguous := ambiguous + [ref];
      }
      k := k + 1;
    }
  }

  /** Resolves every reference, filling unset scopes from the default. */
  method ResolveAll(refs: seq<ResourceRef>, default: Option<string>)
    modifies set x | x in refs
    requires forall i, j :: 0 <= i < j < |refs| ==> refs[i] != refs[j]
    ensures forall i :: 0 <= i < |refs| ==> refs[i].resolved && refs[i].scope == Settled(old(refs[i].scope), default)
  {
    var k := 0;
    while k < |refs|
      invariant 0 <= k <= |refs|
      invariant forall i :: 0 <= i < k ==> refs[i].resolved && refs[i].scope == Settled(old(refs[i].scope), default)
      invariant forall i :: k <= i < |refs| ==> refs[i].scope == old(refs[i].scope)
    {
      refs[k].Resolve(default);
      k := k + 1;
    }
  }

  /** The scope value handed to parsing: the name of the flag's zone or region, when the flag is set. */
  function ScopeArgName(arg: Option<string>, nameOf: string -> string): (scopeArg: Option<string>)
    ensures Truthy(arg) ==> scopeArg == Some(nameOf(arg.value))
    ensures !Truthy(arg) ==> scopeArg.None?
  {
    if Truthy(arg) then Some(nameOf(arg.value)) else None
  }

  /** Zonal references: the scope attribute is `zone`, and the zone listing may be narrowed by a region prefix. */
  method CreateZonalReferences(names: seq<string>, zoneArg: Option<string>, zoneName: string -> string,
                               resourceType: Option<string>, defaultType: string,
                               parse: (string, string, Option<string>) -> Option<string>,
                               default: Option<string>, listZones: Option<string> -> Listing,
                               choose: seq<string> -> Option<nat>,
                               flagName: string := "--zone", regionFilter: Option<string> := None)
    returns (r: Result<seq<ResourceRef>, Failure>)
    ensures var scopeArg := ScopeArgName(zoneArg, zoneName);
      var collection := GetCollection(resourceType, defaultType);
      var outcome := ScopedOutcome(ParsedScopes(names, collection, scopeArg, parse), scopeArg, default,
                                   FetchChoices("zone", flagName, regionFilter, listZones), choose, flagName);
      && (r.Ok? <==> outcome.Ok?)
      && (r.Err? ==> r.error == outcome.error)
      && (r.Ok? ==> Settles(r.value, names, collection, outcome.value))
    ensures r.Ok? ==> forall i :: 0 <= i < |r.value| ==> fresh(r.value[i])
  {
    r := CreateScopedReferences(names, "zone", ScopeArgName(zoneArg, zoneName), resourceType, defaultType,
                                flagName, regionFilter, parse, default, listZones, choose);
  }

  /** The single-name form: element 0 of the list form on the one name. */
  method CreateZonalReference(name: string, zoneArg: Option<string>, zoneName: string -> string,
                              resourceType: Option<string>, defaultType: string,
                              parse: (string, string, Option<string>) -> Option<string>,
                              default: Option<string>, listZones: Option<string> -> Listing,
                              choose: seq<string> -> Option<nat>,
                              flagName: string := "--zone", regionFilter: Option<string> := None)
    returns (r: Result<ResourceRef, Failure>)
    ensures var scopeArg := ScopeArgName(zoneArg, zoneName);
      var collection := GetCollection(resourceType, defaultType);
      var outcome := ScopedOutcome(ParsedScopes([name], collection, scopeArg, parse), scopeArg, default,
                                   FetchChoices("zone", flagName, regionFilter, listZones), choose, flagName);
      && (r.Ok? <==> outcome.Ok?)
      && (r.Err? ==> r.error == outcome.error)
      && (r.Ok? ==> fresh(r.value) && Settles([r.value], [name], collection, outcome.value))
  {
    var refs := CreateZonalReferences([name], zoneArg, zoneName, resourceType, defaultType, parse, default,
                                      listZones, choose, flagName, regionFilter);
    if refs.Err? {
      return Err(refs.error);
    }
    assert refs.value == [refs.value[0]];
    return Ok(refs.value[0]);
  }

  /** Regional references: the scope attribute is `region`, and the region listing is never narrowed. */
  method CreateRegionalReferences(names: seq<string>, regionArg: Option<string>, regionName: string -> string,
                                  resourceType: Option<string>, defaultType: string,
                                  parse: (string, string, Option<string>) -> Option<string>,
                                  default: Option<string>, listRegions: Option<string> -> Listing,
                                  choose: seq<string> -> Option<nat>,
                                  flagName: string := "--region")
    returns (r: Result<seq<ResourceRef>, Failure>)
    ensures var scopeArg := ScopeArgName(regionArg, regionName);
      var collection := GetCollection(resourceType, defaultType);
      var outcome := ScopedOutcome(ParsedScopes(names, collection, scopeArg, parse), scopeArg, default,
                                   FetchChoices("region", flagName, None, listRegions), choose, flagName);
      && (r.Ok? <==> outcome.Ok?)
      && (r.Err? ==> r.error == outcome.error)
      && (r.Ok? ==> Settles(r.value, names, collection, outcome.value))
    ensures r.Ok? ==> forall i :: 0 <= i < |r.value| ==> fresh(r.value[i])
  {
    r := CreateScopedReferences(names, "region", ScopeArgName(regionArg, regionName), resourceType, defaultType,
                                flagName, None, parse, default, listRegions, choose);
  }

  /** The single-name form: element 0 of the list form on the one name. */
  method CreateRegionalReference(name: string, regionArg: Option<string>, regionName: string -> string,
                                 resourceType: Option<string>, defaultType: string,
                                 parse: (string, string, Option<string>) -> Option<string>,
                                 default: Option<string>, listRegions: Option<string> -> Listing,
                                 choose: seq<string> -> Option<nat>,
                                 flagName: string := "--region")
    returns (r: Result<ResourceRef, Failure>)
    ensures var scopeArg := ScopeArgName(regionArg, regionName);
      var collection := GetCollection(resourceType, defaultType);
      var outcome := ScopedOutcome(ParsedScopes([name], collection, scopeArg, parse), scopeArg, default,
                                   FetchChoices("region", flagName, None, listRegions), choose, flagName);
      && (r.Ok? <==> outcome.Ok?)
      && (r.Err? ==> r.error == outcome.error)
      && (r.Ok? ==> fresh(r.value) && Settles([r.value], [name], collection, outcome.value))
  {
    var refs := CreateRegionalReferences([name], regionArg, regionName, resourceType, defaultType, parse,
                                         default, listRegions, choose, flagName);
    if refs.Err? {
      return Err(refs.error);
    }
    assert refs.value == [refs.value[0]];
    return Ok(refs.value[0]);
  }

  /** Global references have no scope to settle: one parsed and resolved reference per name, in order. */
  method CreateGlobalReferences(names: seq<string>, resourceType: Option<string>, defaultType: string)
    returns (refs: seq<ResourceRef>)
    ensures |refs| == |names|
    ensures forall i :: 0 <= i < |names| ==>
      && fresh(refs[i]) && refs[i].resolved && refs[i].name == names[i] && refs[i].scope.None?
      && refs[i].collection == GetCollection(resourceType, defaultType)
  {
    refs := [];
    var k := 0;
    while k < |names|
      invariant 0 <= k <= |names|
      invariant |refs| == k
      invariant forall i :: 0 <= i < k ==>
        && fresh(refs[i]) && refs[i].resolved && refs[i].name == names[i] && refs[i].scope.None?
        && refs[i].collection == GetCollection(resourceType, defaultType)
    {
      var ref := new ResourceRef(names[k], GetCollection(resourceType, defaultType), None);
      ref.Resolve(None);
      refs := refs + [ref];
      k := k + 1;
    }
  }

  /** The single-name form: the one reference of the list form. */
  method CreateGlobalReference(name: string, resourceType: Option<string>, defaultType: string)
    returns (ref: ResourceRef)
    ensures fresh(ref) && ref.resolved && ref.name == name && ref.scope.None?
    ensures ref.collection == GetCollection(resourceType, defaultType)
  {
    var refs := CreateGlobalReferences([name], resourceType, defaultType);
    ref := refs[0];
  }
}
