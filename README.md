# openstack_dns_zone_v2: a Dafny model of the DNS zone resource handlers

This project models the Terraform resource `openstack_dns_zone_v2` from the
viettelidc Terraform provider (`openstack/resource_openstack_dns_zone_v2.go`).
It models the decision logic that the resource wraps around the OpenStack DNS
v2 zones API:

- **Importer.** It splits an import ID on `:`, accepts `<id>` or
  `<id>:<project_id>`, and sets the resource ID and, optionally, `project_id`.
- **Create, Read, Update and Delete handlers.**
  - They build the DNS client and set its auth headers.
  - They issue the zone request.
  - Unless `disable_status_check` is set, they wait for the zone to reach
    ACTIVE (create, update) or DELETED (delete).
  - Create and update then read the zone back into the resource data.
- **Update delta builder.** It copies into the update request only those of
  `email`, `ttl`, `masters` and `description` that changed. When none changed,
  it skips the remote update and only reads.
- **Declarative data.** The schema flags, the `type` validator, the
  ten-minute default timeouts and each phase's wait settings. The wait
  settings are the target states, the pending states, a 5 s delay and a 3 s
  minimum poll interval.

The modules are:

- **`ImportId`**: the pure parser. Splitting, joining, accepting or rejecting,
  and the round trip.
- **`ZoneImport`**: the importer writing its result into the resource data.
- **`ZoneSchema`**: attribute keys and schema flags, the validator, phases,
  default timeouts and `StateChangeConf`.
- **`ResourceState`**:
  - `ResourceData`, a class whose `SetId` and `Set` change the ID and the
    attribute map in place;
  - `Snapshot`, its value-level picture, with typed reads, `HasChange` and the
    per-phase timeout.
- **`ZoneClient`**:
  - request and response records (`CreateOpts`, `UpdateOpts`, `Zone`);
  - the abstract calls a handler makes, recorded in a trace;
  - `Backend`, which gives each call's outcome as an uninterpreted function of
    the request.
- **`Lifecycle`**: diagnostics, the record `Run` of one handler run, and the
  not-found handling shared by read and delete.
- **`ZoneRead`, `ZoneCreate`, `ZoneUpdate`, `ZoneDelete`**: one module per
  handler.
  - Each has a method that updates `ResourceData` in place and returns its
    diagnostic and call trace, in the source's order.
  - The method is proved equal to a specification function over snapshots
    (`ReadSpec`, `CreateSpec`, `UpdateSpec`, `DeleteSpec`).
  - The lifecycle properties are lemmas about those functions.

Some behaviours of the code are easy to get wrong, and the model keeps them as
written:

- **Create when the wait fails.** The ID is assigned only at line 184, after
  the wait for ACTIVE has succeeded. A failed wait therefore leaves the ID as
  it was (`ZoneCreate.CreateWithStatusCheck`).
- **Resource ID in that error.** The create wait's error message, at line 181,
  names `d.Id()`. At that point this is still the prior ID, not the new zone's,
  and the diagnostic carries the snapshot's old ID.
- **Polling timeouts.** The configured timeout is passed to the wait unchecked,
  even when it is shorter than the 5 s delay (`ZoneSchema.WaitConf`). With the
  default timeouts the deadline does exceed the delay
  (`ZoneSchema.DefaultWaitsOutlastDelay`).
- **Trailing colon on import.** An import ID `id:` is accepted and sets
  `project_id` to the empty string, because Go's `strings.Split` yields
  `["id", ""]` (`ImportId.Parse`).

## Model

| member | source | states |
|---|---|---|
| ImportId.Split | openstack/resource_openstack_dns_zone_v2.go:27 | splitting on `:` always yields a first part, and that part is empty exactly when the string is empty or starts with `:` |
| ImportId.SplitSound | openstack/resource_openstack_dns_zone_v2.go:27 | the split has one more part than there are colons, no part contains a colon, and joining the parts with `:` gives back the input |
| ImportId.SplitLength | openstack/resource_openstack_dns_zone_v2.go:27 | the split has one more part than the string has colons |
| ImportId.SplitPartsFree | openstack/resource_openstack_dns_zone_v2.go:27 | no part of the split contains a colon |
| ImportId.SplitJoin | openstack/resource_openstack_dns_zone_v2.go:27 | joining the parts with `:` gives back the split string |
| ImportId.SplitPrefix | openstack/resource_openstack_dns_zone_v2.go:27 | a colon-free prefix followed by `:` splits off as the first part, in front of the split of the rest |
| ImportId.SplitOfJoin | openstack/resource_openstack_dns_zone_v2.go:27 | splitting undoes joining for colon-free parts |
| ImportId.Parse | openstack/resource_openstack_dns_zone_v2.go:27-35 | rejected with the format error exactly when the ID is empty, starts with `:`, or has more than one `:`; an accepted ID is non-empty and colon-free; with no project it is the whole input; with a project, `id:project` is the input |
| ImportId.NoSeparatorIsPlainId | openstack/resource_openstack_dns_zone_v2.go:27-34 | a non-empty import ID without `:` becomes the resource ID unchanged, and no `project_id` is assigned |
| ImportId.RoundTrip | openstack/resource_openstack_dns_zone_v2.go:27-35 | importing `id:project`, with `id` non-empty and both parts colon-free, yields exactly `id` and `project` |
| ImportId.FormatOfParse | openstack/resource_openstack_dns_zone_v2.go:27-35 | formatting an accepted import back as `id` or `id:project` reproduces the input |
| ZoneImport.Import | openstack/resource_openstack_dns_zone_v2.go:25-36 | a rejected ID returns the format error and leaves the resource data untouched; an accepted one sets `project_id` when a project was given, sets the ID, and returns the same resource data |
| ZoneSchema.MutableFieldsAreInPlaceAttributes | openstack/resource_openstack_dns_zone_v2.go:60-112 | the updatable attributes (email, ttl, masters, description) are exactly the schema attributes without ForceNew, apart from `disable_status_check`; name, type, attributes and value_specs are not among them |
| ZoneSchema.StringInSlice | openstack/resource_openstack_dns_zone_v2.go:77-79 | case-sensitive membership validation reports no error exactly when the value is in the allowed list, and otherwise one error |
| ZoneSchema.ValidTypes | openstack/resource_openstack_dns_zone_v2.go:72-80 | `type` passes validation exactly when it is "PRIMARY" or "SECONDARY" |
| ZoneSchema.DefaultTimeout | openstack/resource_openstack_dns_zone_v2.go:39-43 | create, update and delete all default to a ten-minute timeout |
| ZoneSchema.WaitConf | openstack/resource_openstack_dns_zone_v2.go:161-168 | create and update wait for [ACTIVE] through [PENDING]; delete waits for [DELETED] through [ACTIVE, PENDING]; all use a 5 s delay, a 3 s minimum interval and the phase's timeout; no target state is also pending |
| ZoneSchema.DefaultWaitsOutlastDelay | openstack/resource_openstack_dns_zone_v2.go:39-43 | with the default timeouts each phase's deadline is at least its initial delay, and the minimum poll interval is positive |
| ResourceState.TypedMeaning | openstack/resource_openstack_dns_zone_v2.go:132-141 | a `d.Get` read yields a value of the attribute's schema kind: the stored value when it has that kind, and the kind's zero value otherwise |
| ResourceState.HasChangeComparesTypedValues | openstack/resource_openstack_dns_zone_v2.go:230-245 | `HasChange` compares zero-filled typed values: an unchanged stored value is no change, neither is an unset attribute against its kind's zero value (either way round), and between two values of the attribute's kind a change is plain inequality |
| ResourceState.TimeoutInForce | openstack/resource_openstack_dns_zone_v2.go:39-43 | the timeout a phase waits under is the configured one for that phase, and ten minutes when none is configured |
| ResourceState.ResourceData.SetId | openstack/resource_openstack_dns_zone_v2.go:184 | changes the resource ID and nothing else |
| ResourceState.ResourceData.Set | openstack/resource_openstack_dns_zone_v2.go:208-216 | changes one attribute and nothing else |
| Lifecycle.ClientFailure | openstack/resource_openstack_dns_zone_v2.go:124-145 | a handler stops with an error, unchanged data and a trace of only client-construction and auth-header calls, starting with client construction, exactly when building the client or setting its auth header fails |
| Lifecycle.CheckDeleted | openstack/resource_openstack_dns_zone_v2.go:300-303 | a not-found error clears the resource ID and is no error; any other error is reported with the resource ID and changes nothing |
| ZoneRead.Refresh | openstack/resource_openstack_dns_zone_v2.go:208-216 | a read that found the zone keeps the ID, the prior state, the timeouts and the two attributes it does not set, value_specs and disable_status_check |
| ZoneRead.RefreshStores | openstack/resource_openstack_dns_zone_v2.go:208-216 | a read that found the zone stores name, email, description, ttl, type, attributes, masters, region and project_id as values of their schema kinds |
| ZoneRead.RefreshMirrorsZone | openstack/resource_openstack_dns_zone_v2.go:208-216 | after such a read, name, email, description, ttl, type, attributes, masters and project_id read back as the fetched zone's, and region as the client's region |
| ZoneRead.ReadSpec | openstack/resource_openstack_dns_zone_v2.go:190-219 | a failed read leaves the data as it was; a read never creates, updates, deletes or waits |
| ZoneRead.Read | openstack/resource_openstack_dns_zone_v2.go:190-219 | the handler's diagnostic, calls and resulting data are those of `ReadSpec` |
| ZoneRead.Mirror | openstack/resource_openstack_dns_zone_v2.go:208-216 | the nine `Set` calls leave the data as `Refresh` describes |
| ZoneRead.ReadOutcome | openstack/resource_openstack_dns_zone_v2.go:201-216 | with a ready client the calls are client, auth header, get; a read succeeds exactly when the zone is found or reported missing; a found zone is mirrored; a missing one clears the ID |
| ZoneRead.ReadOnlyReads | openstack/resource_openstack_dns_zone_v2.go:201 | a read issues one get request when the client is ready, none otherwise, and never a create, update, delete or wait |
| ZoneRead.RefreshIsIdempotent | openstack/resource_openstack_dns_zone_v2.go:208-216 | refreshing twice from the same zone equals refreshing once |
| ZoneRead.ReadIsIdempotent | openstack/resource_openstack_dns_zone_v2.go:190-219 | a read that found the zone, when repeated against the same service, leaves the same data |
| ZoneCreate.CreateRequestReadsOnlyConfiguration | openstack/resource_openstack_dns_zone_v2.go:130-141 | the create request depends only on the configured name, type, ttl, email, description, attributes, masters and value_specs: two resource states that agree on those eight build the same request, whatever their region, project_id, ID or disable_status_check |
| ZoneCreate.CreateSpec | openstack/resource_openstack_dns_zone_v2.go:123-188 | a failed create never changes the attributes, nor the prior state and timeouts |
| ZoneCreate.Create | openstack/resource_openstack_dns_zone_v2.go:123-188 | the handler's diagnostic, calls and resulting data are those of `CreateSpec` |
| ZoneCreate.CreateFailureAssignsNothing | openstack/resource_openstack_dns_zone_v2.go:148-151 | when building the client or the create request fails, the error is returned, no ID is set and no wait happens |
| ZoneCreate.CreateWithoutStatusCheck | openstack/resource_openstack_dns_zone_v2.go:153-158 | with `disable_status_check`, a created zone's ID is set and the zone read back, with no wait and exactly one get |
| ZoneCreate.CreateWithStatusCheck | openstack/resource_openstack_dns_zone_v2.go:160-187 | otherwise one wait for ACTIVE through PENDING runs on the new zone, in the retry loop; if it fails the error is returned and the data, ID included, is unchanged; if it succeeds the ID is set and the zone read back |
| ZoneCreate.CreateAssignsIdOnlyWhenSettled | openstack/resource_openstack_dns_zone_v2.go:179-184 | a create changes the ID only if the zone was created and status checks are off or the wait succeeded; the new ID is then the zone's, or empty when the read back finds no zone |
| ZoneCreate.CreateTailOnlyWaitsAndReads | openstack/resource_openstack_dns_zone_v2.go:148-187 | with a ready client a create starts with client, auth header and create request, and afterwards only waits and reads |
| ZoneCreate.CreateIssuesOneCreate | openstack/resource_openstack_dns_zone_v2.go:148 | a create issues exactly one create request when the client is ready and none otherwise, and never updates or deletes |
| ZoneUpdate.ZeroedAttributesAreNoChange | openstack/resource_openstack_dns_zone_v2.go:228-254 | when each of email, ttl, masters and description was unset before and is still unset or holds its kind's zero value, nothing counts as changed and the update request is empty, so the update takes the read-only path |
| ZoneUpdate.DeltaCarriesExactlyTheChanges | openstack/resource_openstack_dns_zone_v2.go:228-249 | the update request carries exactly the changed attributes among email, ttl, masters and description, each with its new value, and no other attribute; it is empty exactly when none of them changed |
| ZoneUpdate.BuildUpdateOpts | openstack/resource_openstack_dns_zone_v2.go:228-249 | the field-by-field builder yields that request, and raises `changed` exactly when a tracked attribute changed, which is when the request is non-empty |
| ZoneUpdate.UpdateSpec | openstack/resource_openstack_dns_zone_v2.go:221-287 | a failed update leaves the data as it was |
| ZoneUpdate.Update | openstack/resource_openstack_dns_zone_v2.go:221-287 | the handler's diagnostic, calls and resulting data are those of `UpdateSpec` |
| ZoneUpdate.NoChangeIsJustRead | openstack/resource_openstack_dns_zone_v2.go:251-254 | when no tracked attribute changed, an update is exactly one read after building the client: no update request, no wait, and one get when the client is ready |
| ZoneUpdate.UpdateFailureStopsBeforeWait | openstack/resource_openstack_dns_zone_v2.go:262-265 | a failed update request returns its error with the resource ID before any wait, and changes nothing |
| ZoneUpdate.UpdateAfterRequest | openstack/resource_openstack_dns_zone_v2.go:267-286 | after a successful request: with `disable_status_check` the zone is read at once; otherwise one wait for ACTIVE through PENDING; a failed wait returns an error and changes nothing; a successful one is followed by the read |
| ZoneUpdate.UpdateTailOnlyWaitsAndReads | openstack/resource_openstack_dns_zone_v2.go:262-286 | an update with changes and a ready client starts with client, auth header and the delta's update request, and afterwards only waits and reads |
| ZoneUpdate.ChangedUpdateCounts | openstack/resource_openstack_dns_zone_v2.go:262 | an update with changes and a ready client issues exactly one update request, and no create or delete |
| ZoneUpdate.UnreadyUpdateIssuesNothing | openstack/resource_openstack_dns_zone_v2.go:223-258 | an update whose client cannot be built or authenticated issues no create, get, update, delete or wait |
| ZoneUpdate.UpdateCallsExactlyWhenChanged | openstack/resource_openstack_dns_zone_v2.go:228-265 | an update issues the update request exactly once when the client is ready and a tracked attribute changed, and never otherwise; it never creates or deletes |
| ZoneUpdate.UpdateSendsOnlyTheDelta | openstack/resource_openstack_dns_zone_v2.go:262 | every update request an update issues is for the resource's ID and carries the delta of the changed attributes |
| ZoneDelete.DeleteSpec | openstack/resource_openstack_dns_zone_v2.go:289-325 | a delete never creates, reads or updates; it leaves the data as it was or only clears the ID; a failed delete changes nothing |
| ZoneDelete.Delete | openstack/resource_openstack_dns_zone_v2.go:289-325 | the handler's diagnostic, calls and resulting data are those of `DeleteSpec` |
| ZoneDelete.DeleteFailureStopsBeforeWait | openstack/resource_openstack_dns_zone_v2.go:300-303 | a failed delete request stops before any wait: not-found succeeds and clears the ID; any other error is returned with the resource ID |
| ZoneDelete.DeleteAfterRequest | openstack/resource_openstack_dns_zone_v2.go:305-324 | after a successful request: with `disable_status_check` the delete succeeds at once; otherwise one wait for DELETED through ACTIVE and PENDING, and the delete succeeds exactly when the wait does |
| ZoneDelete.DeleteCallCounts | openstack/resource_openstack_dns_zone_v2.go:300-322 | a delete issues one delete request when the client is ready, and waits once exactly when the request succeeded and status checks are on |
| ZoneDelete.DeleteOfMissingZoneIsIdempotent | openstack/resource_openstack_dns_zone_v2.go:300-303 | when the service answers every delete with not-found, deleting succeeds, and deleting again succeeds with the same data |

## Left out

- **Zone API calls.** The gophercloud calls (`zones.Create`, `Get`, `Update`,
  `Delete`) are network I/O. `Backend` gives each outcome as an uninterpreted
  function of the request.
- **Client construction.** Building the client (`config.DNSV2Client`,
  `GetRegion`) and setting its auth header (`dnsClientSetAuthHeader`) are
  reduced to a fixed region and a fixed success or failure per backend. The
  client that read builds again therefore behaves the same as the first one.
- **State waiting.** `StateChangeConf.WaitForState` and
  `WaitForStateContext` are SDK code driven by wall-clock time, and so are
  `resource.RetryContext` and `checkForRetryableError` around the create wait.
  Each wait is one uninterpreted outcome of its request. The request records
  the zone, the configuration, and whether the wait runs inside the retry
  loop. No poll loop, retry classification or elapsed time is modelled.
- **Not-found classification.** Deciding that an error means "not found" is a
  flag on the error. `CheckDeleted` is not part of this model's source files.
  Read and delete rely on it treating not-found as "already gone": the ID is
  cleared and no error is reported. Any other error is reported with the
  resource ID.
- **Timing and logging.** Context cancellation, sleeping and `log.Printf` are
  left out.
- **Schema plumbing.**
  - `expandToMapStringString`, `expandToStringSlice` and `MapValueSpecs` are
    folded into typed reads. Masters are a set of strings, and value_specs
    are read from their attribute.
  - `Get` is modelled as a typed read that yields the kind's zero value for an
    unset attribute or a value of another kind.
  - The SDK's `HasChange` is modelled as "the typed read of the current value
    differs from the typed read of the prior value". Unset attributes are
    therefore compared as their kind's zero value.
  - A configured timeout replaces the default one.
- **Request encoding.** How `UpdateOpts` becomes JSON is not modelled. An
  email changed to "", a ttl changed to 0 or a masters set changed to empty is
  carried in the request record, even though omitting empty fields may drop it
  on the wire.
- **Diagnostics.** Diagnostic messages are records of failure kind, the
  resource ID they name, and the cause; the text is not modelled. A handler
  returns at most one diagnostic.
- **Clearing the ID after delete.** After a successful delete, the ID is
  cleared by the SDK rather than by the handler, so that step is not
  modelled.
- **Other files.** `viettelidc/resource_viettelidc_kubernetes_v1.go` and
  `viettelidc/resource_viettelidc_server.go` only set or clear the ID around a
  hard-coded HTTP request. `main.go` only does flag parsing and plugin
  serving. Neither is modelled.
