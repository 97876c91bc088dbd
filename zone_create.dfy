/** The create handler: create the zone, wait for it to become ACTIVE, read it back. */
module ZoneCreate {
  import opened Wrappers
  import opened ZoneSchema
  import opened ResourceState
  import opened ZoneClient
  import opened Lifecycle
  import opened ZoneRead

  /** The create request built from the configured attributes. */
  function CreateOptsOf(s: Snapshot): CreateOpts
  {
    CreateOpts(
      s.GetString(Name), s.GetString(Type), s.GetInt(Ttl), s.GetString(Email),
      s.GetString(Description), s.GetMap(Attributes), s.GetSet(Masters), s.GetMap(ValueSpecs))
  }

  /** The attributes the create request is built from. */
  const CREATE_INPUTS: set<Key> := {Name, Type, Ttl, Email, Description, Attributes, Masters, ValueSpecs}

  /**
   * The create request depends on the eight configured attributes it is built
   * from and on nothing else: not on the region, project_id, the resource ID
   * or disable_status_check.
   */
  lemma CreateRequestReadsOnlyConfiguration(s: Snapshot, s': Snapshot)
    requires forall k :: k in CREATE_INPUTS ==> s.Typed(k) == s'.Typed(k)
    ensures CreateOptsOf(s) == CreateOptsOf(s')
  {
    StringInputsAgree(s, s');
    OtherInputsAgree(s, s');
    MapInputsAgree(s, s');
    CreateOptsFromReads(s, s');
  }

  lemma StringInputsAgree(s: Snapshot, s': Snapshot)
    requires s.Typed(Name) == s'.Typed(Name) && s.Typed(Type) == s'.Typed(Type) && s.Typed(Email) == s'.Typed(Email) && s.Typed(Description) == s'.Typed(Description)
    ensures s.GetString(Name) == s'.GetString(Name) && s.GetString(Type) == s'.GetString(Type)
    ensures s.GetString(Email) == s'.GetString(Email) && s.GetString(Description) == s'.GetString(Description)
  {
    SameString(s, s', Name);
    SameString(s, s', Type);
    SameString(s, s', Email);
    SameString(s, s', Description);
  }

  lemma OtherInputsAgree(s: Snapshot, s': Snapshot)
    requires s.Typed(Ttl) == s'.Typed(Ttl) && s.Typed(Masters) == s'.Typed(Masters)
    ensures s.GetInt(Ttl) == s'.GetInt(Ttl) && s.GetSet(Masters) == s'.GetSet(Masters)
  {
    SameInt(s, s', Ttl);
    SameSet(s, s', Masters);
  }

  lemma MapInputsAgree(s: Snapshot, s': Snapshot)
    requires s.Typed(Attributes) == s'.Typed(Attributes) && s.Typed(ValueSpecs) == s'.Typed(ValueSpecs)
    ensures s.GetMap(Attributes) == s'.GetMap(Attributes) && s.GetMap(ValueSpecs) == s'.GetMap(ValueSpecs)
  {
    SameMap(s, s', Attributes);
    SameMap(s, s', ValueSpecs);
  }

  /** Snapshots whose typed reads of the eight inputs agree build the same create request. */
  lemma CreateOptsFromReads(s: Snapshot, s': Snapshot)
    requires s.GetString(Name) == s'.GetString(Name) && s.GetString(Type) == s'.GetString(Type)
    requires s.GetInt(Ttl) == s'.GetInt(Ttl) && s.GetString(Email) == s'.GetString(Email)
    requires s.GetString(Description) == s'.GetString(Description) && s.GetMap(Attributes) == s'.GetMap(Attributes)
    requires s.GetSet(Masters) == s'.GetSet(Masters) && s.GetMap(ValueSpecs) == s'.GetMap(ValueSpecs)
    ensures CreateOptsOf(s) == CreateOptsOf(s')
  {
  }

  /** The calls a create makes up to and including the create request. */
  function CreatePrefix(s: Snapshot, b: Backend): seq<Call>
  {
    [NewClient(b.region), SetAuthHeader, CreateZone(CreateOptsOf(s))]
  }

  /** The wait a status-checked create runs on the new zone `zoneId`, inside the retry loop. */
  function CreateWait(s: Snapshot, zoneId: string): WaitRequest
  {
    WaitRequest(zoneId, WaitConf(CreatePhase, s.Timeout(CreatePhase)), true)
  }

  /**
   * Create. A failure before the zone exists is reported and changes
   * nothing. With status checks disabled the new zone's ID is assigned at
   * once and the zone is read back; otherwise the handler waits for ACTIVE
   * and assigns the ID and reads back only after the wait succeeded.
   */
  function CreateSpec(s: Snapshot, b: Backend): (r: Run)
    ensures r.err.Some? ==> r.after.fields == s.fields
    ensures r.after.prior == s.prior && r.after.timeouts == s.timeouts
  {
    match ClientFailure(b, s)
    case Some(failed) => failed
    case None =>
      var t := CreatePrefix(s, b);
      match b.create(CreateOptsOf(s))
      case Failure(e) => Failed(CreateFailed, None, e.message, t, s)
      case Success(n) =>
        if s.GetBool(DisableStatusCheck) then After(t, ReadSpec(s.WithId(n.id), b))
        else
          var w := t + [WaitFor(CreateWait(s, n.id))];
          match b.waitForState(CreateWait(s, n.id))
          case Some(msg) => Failed(WaitActiveFailed, Some(s.id), msg, w, s)
          case None => After(w, ReadSpec(s.WithId(n.id), b))
  }

  method Create(d: ResourceData, b: Backend) returns (err: Option<Diagnostic>, trace: seq<Call>)
    modifies d
    ensures Run(err, trace, d.Current()) == CreateSpec(old(d.Current()), b)
  {
    ghost var s := d.Current();
    trace := [NewClient(b.region)];
    if b.clientError.Some? {
      return Some(Diagnostic(ClientSetupFailed, None, b.clientError.value)), trace;
    }
    var opts := CreateOptsOf(d.Current());
    trace := trace + [SetAuthHeader];
    if b.authError.Some? {
      return Some(Diagnostic(AuthHeaderFailed, None, b.authError.value)), trace;
    }
    trace := trace + [CreateZone(opts)];
    assert trace == CreatePrefix(s, b);
    var res := b.create(opts);
    if res.Failure? {
      return Some(Diagnostic(CreateFailed, None, res.error.message)), trace;
    }
    var n := res.value;
    if d.Current().GetBool(DisableStatusCheck) {
      d.SetId(n.id);
      var readTrace;
      err, readTrace := Read(d, b);
      assert CreateSpec(s, b) == After(trace, ReadSpec(s.WithId(n.id), b));
      return err, trace + readTrace;
    }
    var req := WaitRequest(n.id, WaitConf(CreatePhase, d.Current().Timeout(CreatePhase)), true);
    assert req == CreateWait(s, n.id);
    trace := trace + [WaitFor(req)];
    var waitErr := b.waitForState(req);
    if waitErr.Some? {
      // the message names d's ID, which is not yet the new zone's
      return Some(Diagnostic(WaitActiveFailed, Some(d.id), waitErr.value)), trace;
    }
    d.SetId(n.id);
    var readTrace;
    err, readTrace := Read(d, b);
    assert CreateSpec(s, b) == After(trace, ReadSpec(s.WithId(n.id), b));
    trace := trace + readTrace;
  }

  /** A create that fails before the zone exists reports the failure, assigns no ID and never waits. */
  lemma CreateFailureAssignsNothing(s: Snapshot, b: Backend)
    requires !b.Ready() || b.create(CreateOptsOf(s)).Failure?
    ensures var r := CreateSpec(s, b);
            && r.err.Some? && r.after == s
            && Count(r.trace, CreateKind) == (if b.Ready() then 1 else 0)
            && Count(r.trace, WaitKind) == 0
  {
    if b.Ready() {
      CountOfThree(NewClient(b.region), SetAuthHeader, CreateZone(CreateOptsOf(s)), CreateKind);
      CountOfThree(NewClient(b.region), SetAuthHeader, CreateZone(CreateOptsOf(s)), WaitKind);
    }
  }

  /** With status checks disabled a successful create request assigns the ID at once and reads back, without waiting. */
  lemma {:induction false} CreateWithoutStatusCheck(s: Snapshot, b: Backend)
    requires b.Ready() && b.create(CreateOptsOf(s)).Success? && s.GetBool(DisableStatusCheck)
    ensures var id := b.create(CreateOptsOf(s)).value.id;
            && CreateSpec(s, b) == After(CreatePrefix(s, b), ReadSpec(s.WithId(id), b))
            && Count(CreateSpec(s, b).trace, WaitKind) == 0
            && Count(CreateSpec(s, b).trace, GetKind) == 1
  {
    var id := b.create(CreateOptsOf(s)).value.id;
    var read := ReadSpec(s.WithId(id), b);
    ReadOnlyReads(s.WithId(id), b);
    CountAppend(CreatePrefix(s, b), read.trace, WaitKind);
    CountAppend(CreatePrefix(s, b), read.trace, GetKind);
    CountOfThree(NewClient(b.region), SetAuthHeader, CreateZone(CreateOptsOf(s)), WaitKind);
    CountOfThree(NewClient(b.region), SetAuthHeader, CreateZone(CreateOptsOf(s)), GetKind);
  }

  /**
   * With status checks on, a successful create request is followed by one
   * wait for ACTIVE on the new zone. If the wait fails the failure is
   * reported and the ID stays unassigned; if it succeeds the ID is assigned
   * and the zone read back.
   */
  lemma CreateWithStatusCheck(s: Snapshot, b: Backend)
    requires b.Ready() && b.create(CreateOptsOf(s)).Success? && !s.GetBool(DisableStatusCheck)
    ensures var id := b.create(CreateOptsOf(s)).value.id;
            var t := CreatePrefix(s, b) + [WaitFor(CreateWait(s, id))];
            var r := CreateSpec(s, b);
            && CreateWait(s, id).conf.target == [ACTIVE] && CreateWait(s, id).conf.pending == [PENDING]
            && (b.waitForState(CreateWait(s, id)).Some? ==>
                  r.err.Some? && r.err.value.kind == WaitActiveFailed && r.trace == t && r.after == s)
            && (b.waitForState(CreateWait(s, id)).None? ==> r == After(t, ReadSpec(s.WithId(id), b)))
  {
  }

  /**
   * The resource ID changes in a create only when the zone was created and
   * either status checks are off or the wait for ACTIVE succeeded; it is
   * then the new zone's ID, or empty when the read back finds no zone.
   */
  lemma CreateAssignsIdOnlyWhenSettled(s: Snapshot, b: Backend)
    ensures var r := CreateSpec(s, b);
            r.after.id != s.id ==>
              b.Ready() && b.create(CreateOptsOf(s)).Success? &&
              (s.GetBool(DisableStatusCheck) ||
               b.waitForState(CreateWait(s, b.create(CreateOptsOf(s)).value.id)).None?) &&
              r.after.id in {b.create(CreateOptsOf(s)).value.id, ""}
  {
    if b.Ready() && b.create(CreateOptsOf(s)).Success? {
      ReadOutcome(s.WithId(b.create(CreateOptsOf(s)).value.id), b);
    }
  }

  /** After its first three calls a create only waits and reads. */
  lemma CreateTailOnlyWaitsAndReads(s: Snapshot, b: Backend)
    requires b.Ready()
    ensures var r := CreateSpec(s, b);
            && |r.trace| >= 3 && r.trace[..3] == CreatePrefix(s, b)
            && forall i :: 3 <= i < |r.trace| ==> !r.trace[i].Mutates()
  {
    var p := CreatePrefix(s, b);
    var r := CreateSpec(s, b);
    match b.create(CreateOptsOf(s))
    case Failure(_) =>
      assert r.trace == p + [] + [];
      QuietTail(p, [], []);
    case Success(n) =>
      var read := ReadSpec(s.WithId(n.id), b);
      var w := [WaitFor(CreateWait(s, n.id))];
      if s.GetBool(DisableStatusCheck) {
        assert r.trace == p + [] + read.trace;
        QuietTail(p, [], read.trace);
      } else if b.waitForState(CreateWait(s, n.id)).Some? {
        assert r.trace == p + w + [];
        QuietTail(p, w, []);
      } else {
        assert r.trace == p + w + read.trace;
        QuietTail(p, w, read.trace);
      }
  }

  /** A create issues one create request when the client is ready, none otherwise, and never updates or deletes. */
  lemma {:induction false} CreateIssuesOneCreate(s: Snapshot, b: Backend)
    ensures Count(CreateSpec(s, b).trace, CreateKind) == if b.Ready() then 1 else 0
    ensures Count(CreateSpec(s, b).trace, UpdateKind) == 0
    ensures Count(CreateSpec(s, b).trace, DeleteKind) == 0
  {
    var r := CreateSpec(s, b);
    if b.Ready() {
      var c := CreateZone(CreateOptsOf(s));
      CreateTailOnlyWaitsAndReads(s, b);
      QuietAfterThree(r.trace, NewClient(b.region), SetAuthHeader, c);
      CountOfThree(NewClient(b.region), SetAuthHeader, c, CreateKind);
      CountOfThree(NewClient(b.region), SetAuthHeader, c, UpdateKind);
      CountOfThree(NewClient(b.region), SetAuthHeader, c, DeleteKind);
    }
  }
}
