# A verified model of core pieces of the Google Cloud SDK command line

This project models, in Dafny, a set of pieces of the Cloud SDK (`gcloud`)
and of the Keystone installer shipped with the App Engine Launcher:

- **Compute resource specifications** (`resource_specs.dfy`, module
  `ResourceSpecs`):
  - the flattener that turns a message schema into the sorted list of its
    field paths (`a.b`, `a[].b`);
  - the table-cell formatters for firewalls, target pools, zones, quotas,
    operations, projects, backend services and routes;
  - the spec table and `GetSpec`, which turns an internal spec into a
    public one.
- **List printer** (`list_printer.dfy`, `ListPrinter`): column selectors,
  the `_NameOnly` and `_CommaList` transforms, and the per-collection
  column table.
- **Scope prompter** (`scope_prompter.dfy`, `ScopePrompter`): how zonal,
  regional and global resource references are created. A reference whose
  zone or region is not known is resolved by prompting once, from a listing
  of the choices.
- **Keystone installer** (`keystone_install.dfy`, `KeystoneInstaller`):
  - version comparison and reading the bundle version from an Info.plist;
  - the installation directory layout and the launchd plist substitution;
  - the permission save and restore pair;
  - the install decision and the choice of the main action.
- **git credential helper** (`git_helper.dfy`, `GitHelper`): parsing the
  `key=value` lines git sends, the credentialed-domain check, and the
  username/password answer.
- **Compute commands**:
  - `backend-services update` (`backend_services_update.dfy`);
  - `target-pools add-instances` (`target_pools_add_instances.dfy`);
  - `operations describe` (`operations_describe.dfy`).
- **Cloud SQL commands**:
  - `instances clone` (`sql_instances_clone.dfy`);
  - `ssl-certs get` and `ssl-certs delete` (`sql_ssl_certs.dfy`).

`common.dfy` holds the shared vocabulary:

- `Option` and `Result`;
- Python's truth value of a string or an integer (`Truthy`, `IntTruthy`);
- `split`/`join`, `splitlines`, `strip` and `replace`;
- decimal printing and `int()` parsing, with the round trip proved
  (`Text.ParseIntToString`).

`commands.dfy` holds:

- the command error kinds (`ToolException`, `HttpException`, and an error
  that escapes the command uncaught);
- the outcome of an API call (a value, an HTTP error, or another API error).

The model takes the source's own form:

- Code that mutates objects becomes classes with `modifies` clauses. These
  are the installer object, a backend service copied and then updated
  field by field, the describer that records its operations service, the
  get request it scopes, and resource references resolved after a prompt.
- Loops become methods with invariants, each proved against a
  specification function:
  - the firewall rules cell;
  - the git info parse;
  - the certificate scan;
  - `GetSpec`.
- Everything else is functions and lemmas.

Where the environment enters, it is a parameter:

- I/O, the API, the resource registry, the interactive prompt;
- `path_simplifier`, the zone-to-region name mapping;
- the credential store, `tar` output.

Two documented claims are checked against the code:

- The flattener's documentation says the field paths come out in
  non-decreasing order. This holds when no field name is a proper prefix of
  a sibling's name (`ResourceSpecs.DefinitionToFieldsAscending`). It fails
  for a repeated message field `point` next to a scalar `point2`
  (`ResourceSpecs.OrderClaimCounterexample`): `point[].x` comes before
  `point2`, although `'2'` sorts before `'['`.
- The documented Polyline example is reproduced exactly
  (`ResourceSpecs.PolylineExample`).

Where the command-line help and the code differ, the code is followed:

- The guard of `backend-services update` accepts `--timeout 0`, but the
  update itself ignores a zero timeout.
- A `--bin-log-position` of 0 counts as absent in `instances clone`.

The installer's operating-system gate reads only the middle part of a
three-part release, so a release such as `11.2.3` is refused like
`10.3.9` (`KeystoneInstaller.ReleaseSupported`).

## Model

| member | source | states |
|---|---|---|
| Text.ParseIntToString | y/google-cloud-sdk/lib/googlecloudsdk/sql/tools/instances/clone.py:90-93 | `int()` reads back every integer that `'%s' %` printed |
| Text.ParseIntSpaceAfterSign | y/google-cloud-sdk/platform/GoogleAppEngineLauncher.app/Contents/Frameworks/KeystoneRegistration.framework/Versions/A/Resources/install.py:372-376 | `int()` skips whitespace between the sign and the digits, so `- 5` reads as -5 |
| Text.TruncateToInt | y/google-cloud-sdk/lib/googlecloudsdk/compute/lib/resource_specs.py:70-73 | `int()` of a number drops its fraction toward zero: the result lies within one of the number, on the side of zero |
| ResourceSpecs.SortByName | y/google-cloud-sdk/lib/googlecloudsdk/compute/lib/resource_specs.py:159-160 | sorting the fields by name is a permutation of them |
| ResourceSpecs.SortByNameSorted | y/google-cloud-sdk/lib/googlecloudsdk/compute/lib/resource_specs.py:159-160 | the fields come out ordered by name |
| ResourceSpecs.PathCountIsLeafCount | y/google-cloud-sdk/lib/googlecloudsdk/compute/lib/resource_specs.py:129-170 | the flattener yields one path per scalar leaf of the schema, counting nested messages recursively |
| ResourceSpecs.DefinitionToFieldsAscending | y/google-cloud-sdk/lib/googlecloudsdk/compute/lib/resource_specs.py:156-170 | when no field name is a proper prefix of a sibling's, the paths are strictly ascending, as the documentation promises |
| ResourceSpecs.DefinitionToFieldsNoDuplicates | y/google-cloud-sdk/lib/googlecloudsdk/compute/lib/resource_specs.py:159-170 | distinct simple field names give a path list without duplicates |
| ResourceSpecs.PolylineExample | y/google-cloud-sdk/lib/googlecloudsdk/compute/lib/resource_specs.py:132-151 | the documented Polyline schema flattens to `label`, `point[].label`, `point[].x`, `point[].y` |
| ResourceSpecs.OrderClaimCounterexample | y/google-cloud-sdk/lib/googlecloudsdk/compute/lib/resource_specs.py:156-157 | a schema whose paths are not in non-decreasing order: `point[].x` precedes `point2` |
| ResourceSpecs.CommaJoinRoundTrip | y/google-cloud-sdk/lib/googlecloudsdk/compute/lib/resource_specs.py:28 | a comma-joined cell splits back into its comma-free items; an empty list gives the empty cell |
| ResourceSpecs.FirewallRulesToCell | y/google-cloud-sdk/lib/googlecloudsdk/compute/lib/resource_specs.py:13-28 | the nested loop builds the comma-joined rule list: one rule per port of each allowed entry, or the bare protocol when there are no ports |
| ResourceSpecs.FirewallRulesNonEmpty | y/google-cloud-sdk/lib/googlecloudsdk/compute/lib/resource_specs.py:13-28 | no rule is empty, and there are no rules exactly when no entry has a protocol |
| ResourceSpecs.FirewallRulesCellEmpty | y/google-cloud-sdk/lib/googlecloudsdk/compute/lib/resource_specs.py:13-28 | the cell is empty exactly when no allowed entry has a protocol |
| ResourceSpecs.FirewallRulesCellSplits | y/google-cloud-sdk/lib/googlecloudsdk/compute/lib/resource_specs.py:13-28 | with comma-free protocols and ports, the cell splits back into the rules |
| ResourceSpecs.AllowedRulesShape | y/google-cloud-sdk/lib/googlecloudsdk/compute/lib/resource_specs.py:16-26 | an entry with ports gives `protocol:port` for each port in order; an entry without gives just the protocol |
| ResourceSpecs.FirewallListCells | y/google-cloud-sdk/lib/googlecloudsdk/compute/lib/resource_specs.py:37-49 | source ranges, source tags and target tags cells are empty for a missing list and split back into the list otherwise |
| ResourceSpecs.TargetPoolHealthChecksCellSplits | y/google-cloud-sdk/lib/googlecloudsdk/compute/lib/resource_specs.py:31-34 | an empty list gives the empty cell; comma-free names split back out of the cell, one per health check, in order |
| ResourceSpecs.BackendsCellSplits | y/google-cloud-sdk/lib/googlecloudsdk/compute/lib/resource_specs.py:111-114 | no backends give the empty cell; comma-free groups split back out of the cell, one per backend, in order |
| ResourceSpecs.EarliestWindowIsFirstMinimum | y/google-cloud-sdk/lib/googlecloudsdk/compute/lib/resource_specs.py:52-59 | the chosen maintenance window has the least begin time, and it is the first such window |
| ResourceSpecs.NextMaintenanceToCell | y/google-cloud-sdk/lib/googlecloudsdk/compute/lib/resource_specs.py:52-59 | no windows give the empty cell; otherwise the cell is `begin--end` of a window whose begin time is least, the first such window in the list |
| ResourceSpecs.FindQuota | y/google-cloud-sdk/lib/googlecloudsdk/compute/lib/resource_specs.py:67-70 | finds the first quota with the metric, or reports that none has it |
| ResourceSpecs.QuotaCellRoundTrip | y/google-cloud-sdk/lib/googlecloudsdk/compute/lib/resource_specs.py:62-82 | an integer quota cell splits at `/` into the padded usage and the limit, which read back as the quota's numbers truncated toward zero, as `int()` does; a missing metric gives the empty cell |
| ResourceSpecs.OperationHttpStatusToCell | y/google-cloud-sdk/lib/googlecloudsdk/compute/lib/resource_specs.py:94-99 | a DONE operation gets a number, any other gets the empty cell; the number is the error code when that is non-zero, and 200 otherwise |
| ResourceSpecs.ProjectToCell | y/google-cloud-sdk/lib/googlecloudsdk/compute/lib/resource_specs.py:102-108 | for a non-empty self-link, the cell is the project suffix up to its first `/`, or the whole suffix when it has none; otherwise it is empty |
| ResourceSpecs.RoutesNextHopPriority | y/google-cloud-sdk/lib/googlecloudsdk/compute/lib/resource_specs.py:117-126 | the next hop is the instance if set, then the gateway, then the IP, and otherwise empty |
| ResourceSpecs.GetSpec | y/google-cloud-sdk/lib/googlecloudsdk/compute/lib/resource_specs.py:527-546 | an unknown type and a column that is neither a path nor a function are errors; otherwise each column becomes a property getter or a formatter, in order, and the fields are the flattened schema |
| ResourceSpecs.RegisteredColumnsSupported | y/google-cloud-sdk/lib/googlecloudsdk/compute/lib/resource_specs.py:176-520 | every registered table column is a path or a function, so `GetSpec` never fails on the columns of a registered type |
| ResourceSpecs.RegisteredEditables | y/google-cloud-sdk/lib/googlecloudsdk/compute/lib/resource_specs.py:456-520 | only backend services, URL maps and target HTTP proxies are editable; the last has no editable fields |
| ListPrinter.Select | y/google-cloud-sdk/lib/googlecloudsdk/core/util/list_printer.py:20-39 | without a transform the fetcher is the path selector; with one, it applies the transform to what the selector finds |
| ListPrinter.NameOnly | y/google-cloud-sdk/lib/googlecloudsdk/core/util/list_printer.py:42-55 | a missing or empty value is passed through; a name never contains `/` |
| ListPrinter.NameOnlyIsLastToken | y/google-cloud-sdk/lib/googlecloudsdk/core/util/list_printer.py:53-54 | the name is the part of the value after its last `/`, or the whole value when there is none |
| ListPrinter.NameOnlyIdempotent | y/google-cloud-sdk/lib/googlecloudsdk/core/util/list_printer.py:42-55 | taking the name of a name changes nothing |
| ListPrinter.CommaList | y/google-cloud-sdk/lib/googlecloudsdk/core/util/list_printer.py:58-63 | a missing or empty list gives the default |
| ListPrinter.CommaListJoins | y/google-cloud-sdk/lib/googlecloudsdk/core/util/list_printer.py:58-63 | a non-empty list gives its items joined by `, `, starting with the first item |
| ListPrinter.PrintResourceList | y/google-cloud-sdk/lib/googlecloudsdk/core/util/list_printer.py:9-17 | printing succeeds exactly for a registered collection, whose header row has one distinct header per column, in column order; an unregistered collection is a key error |
| ListPrinter.ColumnsWellFormed | y/google-cloud-sdk/lib/googlecloudsdk/core/util/list_printer.py:67-114 | no registered table repeats a header, and every column selects a non-empty path |
| ListPrinter.InstanceColumns | y/google-cloud-sdk/lib/googlecloudsdk/core/util/list_printer.py:69-76 | instances show NAME, ZONE, MACHINE_TYPE, INTERNAL_IP, EXTERNAL_IP and STATUS, with zone and machine type as names |
| ScopePrompter.ResourceRef.Resolve | y/google-cloud-sdk/lib/googlecloudsdk/compute/lib/scope_prompter.py:112-114 | resolving a reference marks it resolved and fills an unset scope from the configured default, when there is one; a set scope is kept |
| ScopePrompter.GetCollection | y/google-cloud-sdk/lib/googlecloudsdk/compute/lib/scope_prompter.py:19-24 | zone views live in the resource views API; every other type is a compute collection named after the type or the default |
| ScopePrompter.FilterExpr | y/google-cloud-sdk/lib/googlecloudsdk/compute/lib/scope_prompter.py:40-44 | a non-empty prefix gives the filter `name eq <prefix>.*`; otherwise there is no filter |
| ScopePrompter.FetchChoices | y/google-cloud-sdk/lib/googlecloudsdk/compute/lib/scope_prompter.py:39-63 | the choices are the listed names; listing errors or an empty listing give a tool error that suggests the flag |
| ScopePrompter.PromptForScope | y/google-cloud-sdk/lib/googlecloudsdk/compute/lib/scope_prompter.py:65-83 | the chosen value becomes the scope of every ambiguous reference; a failed listing, no answer or an out-of-range answer is an error and changes nothing |
| ScopePrompter.ParsedScopes | y/google-cloud-sdk/lib/googlecloudsdk/compute/lib/scope_prompter.py:92-96 | every name is parsed against the collection and the flag value |
| ScopePrompter.CreateScopedReferences | y/google-cloud-sdk/lib/googlecloudsdk/compute/lib/scope_prompter.py:85-115 | one new, distinct, resolved reference per name, in order, whose scopes are exactly `ScopedOutcome`'s; it fails exactly when `ScopedOutcome` does, with the same error |
| ScopePrompter.OutcomeKeepsKnownScopes | y/google-cloud-sdk/lib/googlecloudsdk/compute/lib/scope_prompter.py:91-99 | a settled batch has one scope per name, and a scope that parsing found is never replaced |
| ScopePrompter.OutcomeFailsOnlyWhenPrompting | y/google-cloud-sdk/lib/googlecloudsdk/compute/lib/scope_prompter.py:101-110 | the batch can fail only when some scope is unknown and there is neither a flag value nor a default |
| ScopePrompter.OutcomeUsesDefault | y/google-cloud-sdk/lib/googlecloudsdk/compute/lib/scope_prompter.py:101-114 | with a configured default, the batch always settles and every unknown scope becomes the default |
| ScopePrompter.OutcomeOneAnswerForAll | y/google-cloud-sdk/lib/googlecloudsdk/compute/lib/scope_prompter.py:75-83 | after a prompt, one name from the fetched choices is the scope of every reference whose scope was unknown |
| ScopePrompter.NewReferences | y/google-cloud-sdk/lib/googlecloudsdk/compute/lib/scope_prompter.py:89-99 | one new, distinct, unresolved reference per name, in order, with its parsed scope; exactly those without a scope are ambiguous |
| ScopePrompter.ResolveAll | y/google-cloud-sdk/lib/googlecloudsdk/compute/lib/scope_prompter.py:112-113 | every reference ends resolved, each with its scope settled against the default |
| ScopePrompter.ScopeArgName | y/google-cloud-sdk/lib/googlecloudsdk/compute/lib/scope_prompter.py:120-124 | a given flag value is reduced to its name; an absent one stays absent |
| ScopePrompter.CreateZonalReferences | y/google-cloud-sdk/lib/googlecloudsdk/compute/lib/scope_prompter.py:117-133 | the scoped outcome for the attribute `zone`, the flag's zone name and the zone listing narrowed by the region filter: one resolved reference per name or the same error |
| ScopePrompter.CreateZonalReference | y/google-cloud-sdk/lib/googlecloudsdk/compute/lib/scope_prompter.py:135-138 | the list form's element 0 for the one name: the same error, or a fresh reference settled as the outcome for `[name]` says |
| ScopePrompter.CreateRegionalReferences | y/google-cloud-sdk/lib/googlecloudsdk/compute/lib/scope_prompter.py:140-155 | the scoped outcome for the attribute `region`, the flag's region name and the unfiltered region listing: one resolved reference per name or the same error |
| ScopePrompter.CreateRegionalReference | y/google-cloud-sdk/lib/googlecloudsdk/compute/lib/scope_prompter.py:157-160 | the list form's element 0 for the one name: the same error, or a fresh reference settled as the outcome for `[name]` says |
| ScopePrompter.CreateGlobalReferences | y/google-cloud-sdk/lib/googlecloudsdk/compute/lib/scope_prompter.py:162-169 | one new unscoped reference per name, in order, in the collection of the type |
| ScopePrompter.CreateGlobalReference | y/google-cloud-sdk/lib/googlecloudsdk/compute/lib/scope_prompter.py:171-172 | the single-name form gives that name's global reference |
| KeystoneInstaller.ErrorCode | y/google-cloud-sdk/platform/GoogleAppEngineLauncher.app/Contents/Frameworks/KeystoneRegistration.framework/Versions/A/Resources/install.py:98-102 | an error's exit code is its own non-zero code, or the unknown-error code; it is never 0 |
| KeystoneInstaller.IsVersionGreaterThanVersion | y/google-cloud-sdk/platform/GoogleAppEngineLauncher.app/Contents/Frameworks/KeystoneRegistration.framework/Versions/A/Resources/install.py:359-371 | a missing version, or versions with different numbers of components, count as greater |
| KeystoneInstaller.ComponentNumbers | y/google-cloud-sdk/platform/GoogleAppEngineLauncher.app/Contents/Frameworks/KeystoneRegistration.framework/Versions/A/Resources/install.py:372-376 | each component parses with `int()`, or some component does not |
| KeystoneInstaller.CompareComponentsNumeric | y/google-cloud-sdk/platform/GoogleAppEngineLauncher.app/Contents/Frameworks/KeystoneRegistration.framework/Versions/A/Resources/install.py:372-378 | the component loop decides lexicographic order of the numbers: the first differing component decides |
| KeystoneInstaller.VersionGreaterIsNumeric | y/google-cloud-sdk/platform/GoogleAppEngineLauncher.app/Contents/Frameworks/KeystoneRegistration.framework/Versions/A/Resources/install.py:359-378 | for equally long numeric versions, "greater" is numeric lexicographic order of the components |
| KeystoneInstaller.VersionGreaterIrreflexive | y/google-cloud-sdk/platform/GoogleAppEngineLauncher.app/Contents/Frameworks/KeystoneRegistration.framework/Versions/A/Resources/install.py:377-378 | a numeric version is not greater than itself |
| KeystoneInstaller.VersionGreaterAsymmetric | y/google-cloud-sdk/platform/GoogleAppEngineLauncher.app/Contents/Frameworks/KeystoneRegistration.framework/Versions/A/Resources/install.py:359-378 | for equally long numeric versions, greater one way means not greater the other way |
| KeystoneInstaller.VersionGreaterOnLengthMismatch | y/google-cloud-sdk/platform/GoogleAppEngineLauncher.app/Contents/Frameworks/KeystoneRegistration.framework/Versions/A/Resources/install.py:369-371 | versions of different lengths are each greater than the other |
| KeystoneInstaller.ScanFindsFirst | y/google-cloud-sdk/platform/GoogleAppEngineLauncher.app/Contents/Frameworks/KeystoneRegistration.framework/Versions/A/Resources/install.py:289-298 | a found version is the cleaned line after the first key line whose cleaned successor is non-empty |
| KeystoneInstaller.ScanFindsNothing | y/google-cloud-sdk/platform/GoogleAppEngineLauncher.app/Contents/Frameworks/KeystoneRegistration.framework/Versions/A/Resources/install.py:289-298 | no version means no key line has a usable successor, and the last line is not a key line |
| KeystoneInstaller.ScanIndexError | y/google-cloud-sdk/platform/GoogleAppEngineLauncher.app/Contents/Frameworks/KeystoneRegistration.framework/Versions/A/Resources/install.py:293-294 | the scan fails with an index error exactly when it reaches a key on the last line |
| KeystoneInstaller.BundleVersionOfTwoLines | y/google-cloud-sdk/platform/GoogleAppEngineLauncher.app/Contents/Frameworks/KeystoneRegistration.framework/Versions/A/Resources/install.py:289-298 | the key line followed by a `<string>` line gives that string's version |
| KeystoneInstaller.PathJoin | y/google-cloud-sdk/platform/GoogleAppEngineLauncher.app/Contents/Frameworks/KeystoneRegistration.framework/Versions/A/Resources/install.py:213 | joining a directory that ends in `/` with a relative part concatenates them |
| KeystoneInstaller.SetPermissions | y/google-cloud-sdk/platform/GoogleAppEngineLauncher.app/Contents/Frameworks/KeystoneRegistration.framework/Versions/A/Resources/install.py:394-403 | switches to root with umask 022 and saves all three old values |
| KeystoneInstaller.ClearPermissions | y/google-cloud-sdk/platform/GoogleAppEngineLauncher.app/Contents/Frameworks/KeystoneRegistration.framework/Versions/A/Resources/install.py:405-414 | restores the saved values and clears the saved slots |
| KeystoneInstaller.ClearUndoesSet | y/google-cloud-sdk/platform/GoogleAppEngineLauncher.app/Contents/Frameworks/KeystoneRegistration.framework/Versions/A/Resources/install.py:394-414 | clearing after setting restores the exact permission state |
| KeystoneInstaller.KeystoneInstall.constructor | y/google-cloud-sdk/platform/GoogleAppEngineLauncher.app/Contents/Frameworks/KeystoneRegistration.framework/Versions/A/Resources/install.py:140-157 | the root gets a trailing `/`; a system install needs an agent uid; the installer keeps the start interval option parsing left; nothing is cached or saved yet |
| KeystoneInstaller.StartIntervalFromOption | y/google-cloud-sdk/platform/GoogleAppEngineLauncher.app/Contents/Frameworks/KeystoneRegistration.framework/Versions/A/Resources/install.py:1376-1378 | without `-I`/`--interval` the interval is 3523; with it, the decimal text of any integer gives that integer |
| KeystoneInstaller.KeystoneInstall.KsadminPath | y/google-cloud-sdk/platform/GoogleAppEngineLauncher.app/Contents/Frameworks/KeystoneRegistration.framework/Versions/A/Resources/install.py:232-238 | the ksadmin path exists only when the file is present |
| KeystoneInstaller.KeystoneInstall.DirectoryPathsUnderRoot | y/google-cloud-sdk/platform/GoogleAppEngineLauncher.app/Contents/Frameworks/KeystoneRegistration.framework/Versions/A/Resources/install.py:136-137 | every directory path lies under the install root and ends in `/` |
| KeystoneInstaller.KeystoneInstall.TicketStoreIsFile | y/google-cloud-sdk/platform/GoogleAppEngineLauncher.app/Contents/Frameworks/KeystoneRegistration.framework/Versions/A/Resources/install.py:228-230 | the ticket store is the file `TicketStore` inside the Keystone directory, not a directory |
| KeystoneInstaller.KeystoneInstall.PlistWithoutTokens | y/google-cloud-sdk/platform/GoogleAppEngineLauncher.app/Contents/Frameworks/KeystoneRegistration.framework/Versions/A/Resources/install.py:432-441 | a plist without substitution tokens or doubled root slashes is installed unchanged |
| KeystoneInstaller.KeystoneInstall.PlistTokensFilled | y/google-cloud-sdk/platform/GoogleAppEngineLauncher.app/Contents/Frameworks/KeystoneRegistration.framework/Versions/A/Resources/install.py:432-441 | in a template holding the root token followed by `/`, then the install-type and start-interval tokens, each token is replaced by the root, `system` or `user`, and the installer's start interval (the `--interval` value or the default), and the doubled slash after the root disappears |
| KeystoneInstaller.KeystoneInstall.SetSystemInstallPermissions | y/google-cloud-sdk/platform/GoogleAppEngineLauncher.app/Contents/Frameworks/KeystoneRegistration.framework/Versions/A/Resources/install.py:394-403 | the process and the saved slots move to the state `SetPermissions` describes |
| KeystoneInstaller.KeystoneInstall.ClearSystemInstallPermissions | y/google-cloud-sdk/platform/GoogleAppEngineLauncher.app/Contents/Frameworks/KeystoneRegistration.framework/Versions/A/Resources/install.py:405-414 | the process and the saved slots move to the state `ClearPermissions` describes |
| KeystoneInstaller.KeystoneInstall.MyKeystoneBundleVersion | y/google-cloud-sdk/platform/GoogleAppEngineLauncher.app/Contents/Frameworks/KeystoneRegistration.framework/Versions/A/Resources/install.py:341-357 | a cached version is returned as is; otherwise a failed `tar` is a package-version error, and a successful one's Info.plist version is cached |
| KeystoneInstaller.IsMyVersionGreaterThanInstalledVersion | y/google-cloud-sdk/platform/GoogleAppEngineLauncher.app/Contents/Frameworks/KeystoneRegistration.framework/Versions/A/Resources/install.py:380-392 | the package is newer exactly when it is greater than the installed bundle or, failing that, the ticket |
| KeystoneInstaller.ShouldInstall | y/google-cloud-sdk/platform/GoogleAppEngineLauncher.app/Contents/Frameworks/KeystoneRegistration.framework/Versions/A/Resources/install.py:1243-1259 | a user install defers to an existing system install; otherwise install when the package is newer |
| KeystoneInstaller.UserInstallDefersToSystem | y/google-cloud-sdk/platform/GoogleAppEngineLauncher.app/Contents/Frameworks/KeystoneRegistration.framework/Versions/A/Resources/install.py:1243-1259 | an unprivileged install never installs over a system Keystone |
| KeystoneInstaller.FreshMachineInstalls | y/google-cloud-sdk/platform/GoogleAppEngineLauncher.app/Contents/Frameworks/KeystoneRegistration.framework/Versions/A/Resources/install.py:1243-1259 | with nothing installed, the installer always installs |
| KeystoneInstaller.KeystoneInstallSteps | y/google-cloud-sdk/platform/GoogleAppEngineLauncher.app/Contents/Frameworks/KeystoneRegistration.framework/Versions/A/Resources/install.py:1269-1277 | master-disabled is an error; install when forced or newer; lock down when asked, after installing |
| KeystoneInstaller.ChooseAction | y/google-cloud-sdk/platform/GoogleAppEngineLauncher.app/Contents/Frameworks/KeystoneRegistration.framework/Versions/A/Resources/install.py:1391-1433 | no action is a usage error (64); then an unsupported operating system stops with code 3; then a simulated failure code is the error; otherwise nuke beats uninstall beats receipts removal beats installing the package |
| KeystoneInstaller.ReleaseSupported | y/google-cloud-sdk/platform/GoogleAppEngineLauncher.app/Contents/Frameworks/KeystoneRegistration.framework/Versions/A/Resources/install.py:1395-1399 | a `major.minor.patch` release is refused exactly when its minor number is below 4 |
| GitHelper.BeforeNewline | y/google-cloud-sdk/.install/.backup/lib/googlecloudsdk/gcloud/sdktools/auth/git_helper.py:28 | `.` does not match a newline: the match is confined to the text before the first one |
| GitHelper.LastSplit | y/google-cloud-sdk/.install/.backup/lib/googlecloudsdk/gcloud/sdktools/auth/git_helper.py:28 | finds the last `=` that has text on both sides, as the greedy `(.+)` does |
| GitHelper.MatchKeyValue | y/google-cloud-sdk/.install/.backup/lib/googlecloudsdk/gcloud/sdktools/auth/git_helper.py:28 | a line matches exactly when some `=` has text on both sides before the newline; the key runs to the last such `=` |
| GitHelper.MatchShape | y/google-cloud-sdk/.install/.backup/lib/googlecloudsdk/gcloud/sdktools/auth/git_helper.py:28 | the key and value are non-empty and rebuild the line as `key=value`; the greedy key leaves no `=` in the value except possibly its last character |
| GitHelper.MatchSimpleLine | y/google-cloud-sdk/.install/.backup/lib/googlecloudsdk/gcloud/sdktools/auth/git_helper.py:28 | `key=value\n` with an `=`-free value matches as exactly that key and value |
| GitHelper.ParseInfo | y/google-cloud-sdk/.install/.backup/lib/googlecloudsdk/gcloud/sdktools/auth/git_helper.py:47-55 | the loop builds the map the line-by-line specification describes |
| GitHelper.LastLineWins | y/google-cloud-sdk/.install/.backup/lib/googlecloudsdk/gcloud/sdktools/auth/git_helper.py:50-55 | a key's value is the stripped value of the last line that sets it |
| GitHelper.KeysFromLines | y/google-cloud-sdk/.install/.backup/lib/googlecloudsdk/gcloud/sdktools/auth/git_helper.py:50-55 | every key in the map comes from a matching line |
| GitHelper.CredentialedDomains | y/google-cloud-sdk/.install/.backup/lib/googlecloudsdk/gcloud/sdktools/auth/git_helper.py:60-63 | the two Google domains are always credentialed, plus each comma-separated extra domain when the property is set |
| GitHelper.Run | y/google-cloud-sdk/.install/.backup/lib/googlecloudsdk/gcloud/sdktools/auth/git_helper.py:40-85 | only `get` for an https host in a credentialed domain answers; a load failure writes to stderr the indented template with the error formatted in, then dedented; a refresh failure is a tool error; otherwise stdout holds username and access token |
| GitHelper.LoadErrorOneLine | y/google-cloud-sdk/.install/.backup/lib/googlecloudsdk/gcloud/sdktools/auth/git_helper.py:72-75 | for an error without a newline the stderr text is `ERROR: <error>`, a newline, the login hint and a newline, with the template's indent removed |
| GitHelper.LoadErrorMultiLine | y/google-cloud-sdk/.install/.backup/lib/googlecloudsdk/gcloud/sdktools/auth/git_helper.py:72-75 | an error whose second line starts without indentation leaves no common margin, so the stderr text keeps the template's indentation |
| GitHelper.AnswerLines | y/google-cloud-sdk/.install/.backup/lib/googlecloudsdk/gcloud/sdktools/auth/git_helper.py:82-85 | the answer is exactly the two lines `username=…` and `password=…` |
| OperationsDescribe.FallbackReference | y/google-cloud-sdk/lib/googlecloudsdk/compute/subcommands/operations/describe.py:40-54 | for a bare name `--global` wins over `--region`, which wins over `--zone`; a regional or zonal reference carries the name the flag's value reduces to, as the regional and zonal reference builders do; with no flag it is a tool error |
| OperationsDescribe.ServiceFor | y/google-cloud-sdk/lib/googlecloudsdk/compute/subcommands/operations/describe.py:56-69 | only the three operations collections have a service |
| OperationsDescribe.ServiceMatchesCollection | y/google-cloud-sdk/lib/googlecloudsdk/compute/subcommands/operations/describe.py:64-69 | each service belongs to exactly its own collection |
| OperationsDescribe.Describe.CreateReference | y/google-cloud-sdk/lib/googlecloudsdk/compute/subcommands/operations/describe.py:36-70 | resolves the reference (a parsed URI, else the flag fallback with the flag reduced to its region or zone name) and records its collection's service; on an error the service is unchanged |
| OperationsDescribe.Describe.ScopeRequest | y/google-cloud-sdk/lib/googlecloudsdk/compute/subcommands/operations/describe.py:72-76 | a regional operation's request gets its region, a zonal one's its zone, and a global one's nothing |
| OperationsDescribe.ParsedReferenceWins | y/google-cloud-sdk/lib/googlecloudsdk/compute/subcommands/operations/describe.py:37-39 | a parsed URI wins over the flags and is rejected only when not an operation |
| OperationsDescribe.FallbackIsAnOperation | y/google-cloud-sdk/lib/googlecloudsdk/compute/subcommands/operations/describe.py:41-70 | a bare name resolves exactly when a scope flag is given, and then to an operation of that name |
| BackendServicesUpdate.BackendService.Copy | y/google-cloud-sdk/lib/googlecloudsdk/compute/subcommands/backend_services/update.py:56 | the replacement starts as a copy of every field of the existing service |
| BackendServicesUpdate.Modify | y/google-cloud-sdk/lib/googlecloudsdk/compute/subcommands/backend_services/update.py:55-78 | a new resource whose fields are the existing ones updated as `Modified` describes |
| BackendServicesUpdate.ModifiedFields | y/google-cloud-sdk/lib/googlecloudsdk/compute/subcommands/backend_services/update.py:58-71 | name, backends and fingerprint are kept; a description is set, cleared by `''` or kept; a health check replaces the list by its one link; a non-zero timeout or port is set, and otherwise the old one stays |
| BackendServicesUpdate.ModifiedPortName | y/google-cloud-sdk/lib/googlecloudsdk/compute/subcommands/backend_services/update.py:73-76 | a given port name is set; without one, a non-empty existing name is kept and an empty one becomes none, so it is never left empty |
| BackendServicesUpdate.ModifiedIdempotent | y/google-cloud-sdk/lib/googlecloudsdk/compute/subcommands/backend_services/update.py:55-78 | applying the same update to its own result changes nothing more |
| BackendServicesUpdate.CheckArgs | y/google-cloud-sdk/lib/googlecloudsdk/compute/subcommands/backend_services/update.py:80-88 | the command is refused, with its message, exactly when there is no description flag, no health check, no timeout flag, no non-zero port and no port name; otherwise it proceeds with the same flags |
| BackendServicesUpdate.RefusedArgsChangeNothing | y/google-cloud-sdk/lib/googlecloudsdk/compute/subcommands/backend_services/update.py:80-88 | whatever the guard refuses would have made the no-flag update |
| BackendServicesUpdate.ZeroTimeoutAcceptedButIgnored | y/google-cloud-sdk/lib/googlecloudsdk/compute/subcommands/backend_services/update.py:67-68 | `--timeout 0` passes the guard, yet the replacement is the no-flag update |
| SqlInstancesClone.CloneRequestFor | y/google-cloud-sdk/lib/googlecloudsdk/sql/tools/instances/clone.py:75-103 | a project mismatch is refused first; a bin-log file without a non-zero position, or the reverse, is refused; otherwise the request goes to the clone's project with both instance names, and with coordinates exactly when a file is given |
| SqlInstancesClone.BinLogCoordinatesCarried | y/google-cloud-sdk/lib/googlecloudsdk/sql/tools/instances/clone.py:90-94 | the coordinates carry the file name, and the position string reads back as the given position |
| SqlInstancesClone.ZeroPositionIsAbsent | y/google-cloud-sdk/lib/googlecloudsdk/sql/tools/instances/clone.py:90-99 | a position of 0 has the same effect as no position |
| SqlInstancesClone.Run | y/google-cloud-sdk/lib/googlecloudsdk/sql/tools/instances/clone.py:43-113 | validation errors come back unchanged; for a valid request, a returned call gives the clone's operation, an HTTP error becomes an HTTP exception and any other API error a tool error; nothing escapes uncaught |
| TargetPoolsAddInstances.CreateRequests | y/google-cloud-sdk/lib/googlecloudsdk/compute/subcommands/target_pools/add_instances.py:42-67 | one request for the project, listing every instance in order, naming the pool and placed in the region of the pool reference resolved for the pool name and the one region of all instances; several regions are a tool error |
| TargetPoolsAddInstances.BareNamedPool | y/google-cloud-sdk/lib/googlecloudsdk/compute/subcommands/target_pools/add_instances.py:57-64 | a pool given by a bare name is requested under that name in the instances' region, reduced to its name |
| TargetPoolsAddInstances.MixedRegionsRefused | y/google-cloud-sdk/lib/googlecloudsdk/compute/subcommands/target_pools/add_instances.py:49-55 | the command is refused exactly when two instances lie in zones of different regions |
| SqlSslCerts.FirstMatch | y/google-cloud-sdk/lib/googlecloudsdk/sql/tools/ssl_certs/get.py:59-63 | the index of the first certificate with the common name, or none when no certificate has it |
| SqlSslCerts.FindCert | y/google-cloud-sdk/lib/googlecloudsdk/sql/tools/ssl_certs/get.py:59-65 | the scan stops at the first certificate with the common name |
| SqlSslCerts.FirstMatchAt | y/google-cloud-sdk/lib/googlecloudsdk/sql/tools/ssl_certs/get.py:59-63 | a match with no match before it is the first match |
| SqlSslCerts.Get | y/google-cloud-sdk/lib/googlecloudsdk/sql/tools/ssl_certs/get.py:56-69 | the first certificate with the common name, as listed; no such certificate is a tool error; a listing HTTP error is an HTTP exception, other API errors tool errors |
| SqlSslCerts.Delete | y/google-cloud-sdk/lib/googlecloudsdk/sql/tools/ssl_certs/delete.py:59-75 | at most one delete request, for the first matching certificate's fingerprint in the instance's project; no match is a tool error; only HTTP errors are converted, other API errors escape |

## Left out

- `_MachineTypeMemoryToCell` and the non-integer branch of `_QuotaToCell` (resource_specs.py 76-78) format floating-point numbers and are not modelled.
- `ResourceSpecs.QuotaCellRoundTrip`: quota usage and limit are exact reals; the rounding of binary floating point before `int()` truncates them is not modelled.
- `path_simplifier.Name`, `ProjectSuffix` and `ScopedSuffix`, `attrpath.Selector` and `property_selector` are parameters; their parsing of URLs is not modelled.
- `resources.Parse`, the zone-to-region name mapping, the interactive `PromptChoice` and the region and zone listers are parameters of the scope prompter and of the commands. `HasDefaultValue` and the default `Resolve` fills in are one parameter, the configured default scope.
- `ScopePrompter.ResourceRef.Resolve`: the resource registry's resolution of the other URL parameters (the project, for one) is not modelled; only the scope is.
- `ListPrinter.PrintResourceList`: the rows `console_io.PrintExtendedList` prints for the items are not modelled; the model returns the header row of the collection's columns.
- `util.GetError` formatting of HTTP errors is not modelled: the error text is carried unchanged.
- `instances clone` assembles its body as JSON text and parses it back. The model keeps the record the text denotes, so a file or instance name containing a quote, which would break the JSON, is not modelled.
- The `operations.get` that turns an API result into an operation resource is not modelled; `SqlOperation` records the instance and the operation name.
- `backend-services update` runs through the read-modify-write base class (get the resource, modify, send the update); only `Run`'s guard and `Modify` are modelled.
- `ResourceSpecs.GetSpec`: some registered types look up their message class with `getattr(compute_v1_messages, …, None)` (resource_specs.py 457, 487, 508), so the class can be missing. Flattening a missing class then fails with `AttributeError`, after the column loop has run. The model reports this as `MissingMessageClass`, without the Python error itself.
- The git helper's stdin and stdout, `properties`, the credential store's load and refresh, and the `.netrc` check (git_helper.py 87 onwards) are parameters or left out.
- The Keystone installer's subprocesses (`launchctl`, `ksadmin`, `pkgutil`, `tar`), its file system work, the install lock and the rest of its `main` option parsing are left out; their results are parameters. The `-I`/`--interval` value is read by `StartInterval` (None where `int()` would raise) and reaches the installer as its start interval. `platform.mac_ver()` is the `macVersion` parameter of `ChooseAction`, `None` when the call fails.
- `KeystoneInstaller.IsVersionGreaterThanVersion`: a component that `int()` rejects is a `ValueError` in the source; the model returns None for it and proves nothing about which error text Python would show.
- `SqlSslCerts.Get` and `SqlSslCerts.Delete`: a listing without an `items` key raises `KeyError` in the source; the model takes the listing as the list of items.
- `GitHelper.Dedent`: where two indents disagree (a tab against a space) the margin is their common prefix; a `textwrap` that drops the margin entirely there is not modelled.
- `TargetPoolsAddInstances.CreateRequests` requires at least one instance, as the `--instances` flag (one or more values) guarantees.
