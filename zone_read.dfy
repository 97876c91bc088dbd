/** The read handler: refresh the resource data from the zone the service reports. */
module ZoneRead {
  import opened Wrappers
  import opened ZoneSchema
  import opened ResourceState
  import opened ZoneClient
  import opened Lifecycle

  /**
   * The resource data after a read found zone `n` in `region`: the zone's
   * attributes mirrored; the two attributes a read does not refresh,
   * value_specs and disable_status_check, are kept.
   */
  function Refresh(s: Snapshot, n: Zone, region: string): (r: Snapshot)
    ensures r.id == s.id && r.prior == s.prior && r.timeouts == s.timeouts
    ensures r.Get(ValueSpecs) == s.Get(ValueSpecs) && r.Get(DisableStatusCheck) == s.Get(DisableStatusCheck)
  {
    s.(fields := s.fields
      [Name := Str(n.name)]
      [Email := Str(n.email)]
      [Description := Str(n.description)]
      [Ttl := Int(n.ttl)]
      [Type := Str(n.zoneType)]
      [Attributes := StrMap(n.attributes)]
      [Masters := StrSet(n.masters)]
      [Region := Str(region)]
      [ProjectId := Str(n.projectId)])
  }

  /** After a refresh the mirrored attributes read back as the zone's values and the client's region. */
  lemma RefreshMirrorsZone(s: Snapshot, n: Zone, region: string)
    ensures var r := Refresh(s, n, region);
            && r.GetString(Name) == n.name && r.GetString(Email) == n.email
            && r.GetString(Description) == n.description && r.GetInt(Ttl) == n.ttl
            && r.GetString(Type) == n.zoneType && r.GetMap(Attributes) == n.attributes
            && r.GetSet(Masters) == n.masters
            && r.GetString(Region) == region && r.GetString(ProjectId) == n.projectId
  {
    RefreshStores(s, n, region);
  }

  /** The values a refresh stores, attribute by attribute. */
  lemma RefreshStores(s: Snapshot, n: Zone, region: string)
    ensures var m := Refresh(s, n, region).fields;
            && m[Name] == Str(n.name) && m[Email] == Str(n.email) && m[Description] == Str(n.description)
            && m[Ttl] == Int(n.ttl) && m[Type] == Str(n.zoneType) && m[Attributes] == StrMap(n.attributes)
            && m[Masters] == StrSet(n.masters) && m[Region] == Str(region) && m[ProjectId] == Str(n.projectId)
  {
  }

  /**
   * Read: fetch the zone named by the resource ID. A failure is reported and
   * leaves the data as it was, except that "not found" drops the resource
   * (see ReadOutcome). Read issues no request but the read.
   */
  function ReadSpec(s: Snapshot, b: Backend): (r: Run)
    ensures r.err.Some? ==> r.after == s
    ensures forall i :: 0 <= i < |r.trace| ==> !r.trace[i].Mutates() && !r.trace[i].WaitFor?
  {
    match ClientFailure(b, s)
    case Some(failed) => failed
    case None =>
      var t := [NewClient(b.region), SetAuthHeader, GetZone(s.id)];
      match b.get(s.id)
      case Failure(e) =>
        if e.notFound then Run(None, t, s.WithId(""))
        else Failed(RetrieveFailed, Some(s.id), e.message, t, s)
      case Success(n) => Run(None, t, Refresh(s, n, b.region))
  }

  method Read(d: ResourceData, b: Backend) returns (err: Option<Diagnostic>, trace: seq<Call>)
    modifies d
    ensures Run(err, trace, d.Current()) == ReadSpec(old(d.Current()), b)
  {
    trace := [NewClient(b.region)];
    if b.clientError.Some? {
      return Some(Diagnostic(ClientSetupFailed, None, b.clientError.value)), trace;
    }
    trace := trace + [SetAuthHeader];
    if b.authError.Some? {
      return Some(Diagnostic(AuthHeaderFailed, None, b.authError.value)), trace;
    }
    trace := trace + [GetZone(d.id)];
    var res := b.get(d.id);
    if res.Failure? {
      err := CheckDeleted(d, res.error, RetrieveFailed);
      return;
    }
    Mirror(d, res.value, b.region);
    err := None;
  }

  /** Copies a fetched zone's attributes into the resource data, one attribute at a time. */
  method Mirror(d: ResourceData, n: Zone, region: string)
    modifies d
    ensures d.Current() == Refresh(old(d.Current()), n, region)
  {
    d.Set(Name, Str(n.name));
    d.Set(Email, Str(n.email));
    d.Set(Description, Str(n.description));
    d.Set(Ttl, Int(n.ttl));
    d.Set(Type, Str(n.zoneType));
    d.Set(Attributes, StrMap(n.attributes));
    d.Set(Masters, StrSet(n.masters));
    d.Set(Region, Str(region));
    d.Set(ProjectId, Str(n.projectId));
  }

  /**
   * The outcomes of a read: with a ready client it makes exactly the calls
   * client, auth header, get; it succeeds exactly when the zone is found or
   * reported missing; a found zone is mirrored; a missing one clears the ID.
   */
  lemma ReadOutcome(s: Snapshot, b: Backend)
    ensures var r := ReadSpec(s, b);
            && (b.Ready() ==> r.trace == [NewClient(b.region), SetAuthHeader, GetZone(s.id)])
            && (r.err.None? <==> b.Ready() && (b.get(s.id).Success? || b.get(s.id).error.notFound))
            && (b.Ready() && b.get(s.id).Success? ==> r.after == Refresh(s, b.get(s.id).value, b.region))
            && (b.Ready() && b.get(s.id).Failure? && b.get(s.id).error.notFound ==> r.after == s.WithId(""))
  {
  }

  /** Read issues the get request once when the client is ready, and no request that changes the zone. */
  lemma ReadOnlyReads(s: Snapshot, b: Backend)
    ensures Count(ReadSpec(s, b).trace, CreateKind) == 0 && Count(ReadSpec(s, b).trace, UpdateKind) == 0
    ensures Count(ReadSpec(s, b).trace, DeleteKind) == 0 && Count(ReadSpec(s, b).trace, WaitKind) == 0
    ensures Count(ReadSpec(s, b).trace, GetKind) == if b.Ready() then 1 else 0
  {
    NoMutations(ReadSpec(s, b).trace);
    CountZero(ReadSpec(s, b).trace, WaitKind);
    if b.Ready() {
      CountOfThree(NewClient(b.region), SetAuthHeader, GetZone(s.id), GetKind);
    }
  }

  /** Refreshing twice from the same zone is refreshing once. */
  lemma RefreshIsIdempotent(s: Snapshot, n: Zone, region: string)
    ensures Refresh(Refresh(s, n, region), n, region) == Refresh(s, n, region)
  {
    var m := Refresh(s, n, region).fields;
    KeepValue(m, Name, Str(n.name));
    KeepValue(m, Email, Str(n.email));
    KeepValue(m, Description, Str(n.description));
    KeepValue(m, Ttl, Int(n.ttl));
    KeepValue(m, Type, Str(n.zoneType));
    KeepValue(m, Attributes, StrMap(n.attributes));
    KeepValue(m, Masters, StrSet(n.masters));
    KeepValue(m, Region, Str(region));
    KeepValue(m, ProjectId, Str(n.projectId));
  }

  /** Setting an attribute to the value it already holds changes nothing. */
  lemma KeepValue(m: map<Key, Value>, k: Key, v: Value)
    requires k in m && m[k] == v
    ensures m[k := v] == m
  {
  }

  /** A read that found the zone reads the same data when repeated against the same service. */
  lemma ReadIsIdempotent(s: Snapshot, b: Backend)
    requires b.Ready() && b.get(s.id).Success?
    ensures ReadSpec(ReadSpec(s, b).after, b).after == ReadSpec(s, b).after
  {
    var n := b.get(s.id).value;
    var s1 := Refresh(s, n, b.region);
    assert ReadSpec(s, b).after == s1;
    assert ReadSpec(s1, b).after == Refresh(s1, n, b.region);
    RefreshIsIdempotent(s, n, b.region);
  }
}
