/**
 * The update handler: build the delta of the attributes the service can
 * change in place, skip the remote update when nothing changed, else send it,
 * wait for ACTIVE and read the zone back.
 */
module ZoneUpdate {
  import opened Wrappers
  import opened ZoneSchema
  import opened ResourceState
  import opened ZoneClient
  import opened Lifecycle
  import opened ZoneRead

  /** Some attribute the service can change in place differs from its prior value. */
  predicate AnyTrackedChange(s: Snapshot)
  {
    exists k :: k in MUTABLE_FIELDS && s.HasChange(k)
  }

  /** The update request for a snapshot: each tracked attribute, when it changed. */
  function UpdateDelta(s: Snapshot): UpdateOpts
  {
    UpdateOpts(
      if s.HasChange(Email) then Some(s.GetString(Email)) else None,
      if s.HasChange(Ttl) then Some(s.GetInt(Ttl)) else None,
      if s.HasChange(Masters) then Some(s.GetSet(Masters)) else None,
      if s.HasChange(Description) then Some(s.GetString(Description)) else None)
  }

  /**
   * The update request carries exactly the changed attributes among email,
   * ttl, masters and description, each with its new value, and nothing else;
   * it is empty exactly when none of them changed.
   */
  lemma DeltaCarriesExactlyTheChanges(s: Snapshot)
    ensures forall k :: k in MUTABLE_FIELDS ==> UpdateDelta(s).Sent(k) == (if s.HasChange(k) then s.Typed(k) else Null)
    ensures forall k :: k !in MUTABLE_FIELDS ==> UpdateDelta(s).Sent(k) == Null
    ensures UpdateDelta(s) == EMPTY_UPDATE <==> !AnyTrackedChange(s)
  {
  }

  /**
   * Attributes that were never set and now hold nothing or their kind's zero
   * value are no change: the update sends nothing and only reads.
   */
  lemma ZeroedAttributesAreNoChange(s: Snapshot)
    requires forall k :: k in MUTABLE_FIELDS ==>
               Lookup(s.prior, k) == Null && (s.Get(k) == Null || s.Get(k) == Zero(Schema(k).kind))
    ensures !AnyTrackedChange(s)
    ensures UpdateDelta(s) == EMPTY_UPDATE
  {
    forall k | k in MUTABLE_FIELDS
      ensures !s.HasChange(k)
    {
      HasChangeComparesTypedValues(s, k);
    }
    DeltaCarriesExactlyTheChanges(s);
  }

  /** The handler's delta builder: field by field, raising `changed` on each changed attribute. */
  method BuildUpdateOpts(d: ResourceData) returns (opts: UpdateOpts, changed: bool)
    ensures opts == UpdateDelta(d.Current())
    ensures changed <==> AnyTrackedChange(d.Current())
    ensures changed <==> opts != EMPTY_UPDATE
  {
    opts := EMPTY_UPDATE;
    changed := false;
    var s := d.Current();
    if s.HasChange(Email) {
      opts := opts.(email := Some(s.GetString(Email)));
      changed := true;
    }
    if s.HasChange(Ttl) {
      opts := opts.(ttl := Some(s.GetInt(Ttl)));
      changed := true;
    }
    if s.HasChange(Masters) {
      opts := opts.(masters := Some(s.GetSet(Masters)));
      changed := true;
    }
    if s.HasChange(Description) {
      var description := s.GetString(Description);
      opts := opts.(description := Some(description));
      changed := true;
    }
  }

  /** The calls an update with changes makes up to and including the update request. */
  function UpdatePrefix(s: Snapshot, b: Backend): seq<Call>
  {
    [NewClient(b.region), SetAuthHeader, UpdateZone(s.id, UpdateDelta(s))]
  }

  function UpdateWait(s: Snapshot): WaitRequest
  {
    WaitRequest(s.id, WaitConf(UpdatePhase, s.Timeout(UpdatePhase)), false)
  }

  /**
   * Update. Without a change to a tracked attribute it only reads the zone.
   * Otherwise it sends the delta; a failed request is reported before any
   * wait; with status checks disabled the zone is read at once; else the
   * handler waits for ACTIVE, reports a failed wait, and reads the zone
   * after a successful one. A failed update changes nothing.
   */
  function UpdateSpec(s: Snapshot, b: Backend): (r: Run)
    ensures r.err.Some? ==> r.after == s
    ensures r.after.prior == s.prior && r.after.timeouts == s.timeouts
  {
    if b.clientError.Some? then Failed(ClientSetupFailed, None, b.clientError.value, [NewClient(b.region)], s)
    else if !AnyTrackedChange(s) then After([NewClient(b.region)], ReadSpec(s, b))
    else if b.authError.Some? then
      Failed(AuthHeaderFailed, None, b.authError.value, [NewClient(b.region), SetAuthHeader], s)
    else
      var t := UpdatePrefix(s, b);
      match b.update(s.id, UpdateDelta(s))
      case Some(e) => Failed(UpdateFailed, Some(s.id), e.message, t, s)
      case None =>
        if s.GetBool(DisableStatusCheck) then After(t, ReadSpec(s, b))
        else
          var w := t + [WaitFor(UpdateWait(s))];
          match b.waitForState(UpdateWait(s))
          case Some(msg) => Failed(WaitActiveFailed, Some(s.id), msg, w, s)
          case None => After(w, ReadSpec(s, b))
  }

  method Update(d: ResourceData, b: Backend) returns (err: Option<Diagnostic>, trace: seq<Call>)
    modifies d
    ensures Run(err, trace, d.Current()) == UpdateSpec(old(d.Current()), b)
  {
    ghost var s := d.Current();
    trace := [NewClient(b.region)];
    if b.clientError.Some? {
      return Some(Diagnostic(ClientSetupFailed, None, b.clientError.value)), trace;
    }
    var opts, changed := BuildUpdateOpts(d);
    if !changed {
      var readTrace;
      err, readTrace := Read(d, b);
      assert UpdateSpec(s, b) == After(trace, ReadSpec(s, b));
      return err, trace + readTrace;
    }
    trace := trace + [SetAuthHeader];
    if b.authError.Some? {
      return Some(Diagnostic(AuthHeaderFailed, None, b.authError.value)), trace;
    }
    trace := trace + [UpdateZone(d.id, opts)];
    assert trace == UpdatePrefix(s, b);
    var updateErr := b.update(d.id, opts);
    if updateErr.Some? {
      return Some(Diagnostic(UpdateFailed, Some(d.id), updateErr.value.message)), trace;
    }
    if d.Current().GetBool(DisableStatusCheck) {
      var readTrace;
      err, readTrace := Read(d, b);
      assert UpdateSpec(s, b) == After(trace, ReadSpec(s, b));
      return err, trace + readTrace;
    }
    var req := WaitRequest(d.id, WaitConf(UpdatePhase, d.Current().Timeout(UpdatePhase)), false);
    assert req == UpdateWait(s);
    trace := trace + [WaitFor(req)];
    var waitErr := b.waitForState(req);
    if waitErr.Some? {
      return Some(Diagnostic(WaitActiveFailed, Some(d.id), waitErr.value)), trace;
    }
    var readTrace;
    err, readTrace := Read(d, b);
    assert UpdateSpec(s, b) == After(trace, ReadSpec(s, b));
    trace := trace + readTrace;
  }

  /**
   * The no-op short-circuit: when no tracked attribute changed, an update is
   * exactly a read (after building the client): no update request, no wait.
   */
  lemma {:induction false} NoChangeIsJustRead(s: Snapshot, b: Backend)
    requires b.clientError.None? && !AnyTrackedChange(s)
    ensures UpdateSpec(s, b) == After([NewClient(b.region)], ReadSpec(s, b))
    ensures Count(UpdateSpec(s, b).trace, UpdateKind) == 0 && Count(UpdateSpec(s, b).trace, WaitKind) == 0
    ensures Count(UpdateSpec(s, b).trace, CreateKind) == 0 && Count(UpdateSpec(s, b).trace, DeleteKind) == 0
    ensures Count(UpdateSpec(s, b).trace, GetKind) == if b.authError.None? then 1 else 0
  {
    ReadOnlyReads(s, b);
    CountAppend([NewClient(b.region)], ReadSpec(s, b).trace, CreateKind);
    CountAppend([NewClient(b.region)], ReadSpec(s, b).trace, DeleteKind);
    CountAppend([NewClient(b.region)], ReadSpec(s, b).trace, UpdateKind);
    CountAppend([NewClient(b.region)], ReadSpec(s, b).trace, WaitKind);
    CountAppend([NewClient(b.region)], ReadSpec(s, b).trace, GetKind);
  }

  /**
   * An update that sends its delta and gets a failure back reports it with
   * the resource ID, changes nothing and never waits.
   */
  lemma UpdateFailureStopsBeforeWait(s: Snapshot, b: Backend)
    requires b.Ready() && AnyTrackedChange(s) && b.update(s.id, UpdateDelta(s)).Some?
    ensures var r := UpdateSpec(s, b);
            && r.err == Some(Diagnostic(UpdateFailed, Some(s.id), b.update(s.id, UpdateDelta(s)).value.message))
            && r.trace == UpdatePrefix(s, b) && r.after == s
  {
  }

  /**
   * After a successful update request: with status checks disabled the zone
   * is read at once; otherwise the handler waits for ACTIVE on the
   * resource's zone, reports a failed wait, and reads after a successful one.
   */
  lemma UpdateAfterRequest(s: Snapshot, b: Backend)
    requires b.Ready() && AnyTrackedChange(s) && b.update(s.id, UpdateDelta(s)).None?
    ensures var r := UpdateSpec(s, b);
            var t := UpdatePrefix(s, b) + [WaitFor(UpdateWait(s))];
            && (s.GetBool(DisableStatusCheck) ==> r == After(UpdatePrefix(s, b), ReadSpec(s, b)))
            && UpdateWait(s).conf.target == [ACTIVE] && UpdateWait(s).conf.pending == [PENDING]
            && (!s.GetBool(DisableStatusCheck) && b.waitForState(UpdateWait(s)).Some? ==>
                  r.err.Some? && r.err.value.kind == WaitActiveFailed && r.trace == t && r.after == s)
            && (!s.GetBool(DisableStatusCheck) && b.waitForState(UpdateWait(s)).None? ==>
                  r == After(t, ReadSpec(s, b)))
  {
  }

  /** After its first three calls an update with changes only waits and reads. */
  lemma UpdateTailOnlyWaitsAndReads(s: Snapshot, b: Backend)
    requires b.Ready() && AnyTrackedChange(s)
    ensures var r := UpdateSpec(s, b);
            && |r.trace| >= 3 && r.trace[..3] == UpdatePrefix(s, b)
            && forall i :: 3 <= i < |r.trace| ==> !r.trace[i].Mutates()
  {
    var p := UpdatePrefix(s, b);
    var r := UpdateSpec(s, b);
    var read := ReadSpec(s, b);
    var w := [WaitFor(UpdateWait(s))];
    if b.update(s.id, UpdateDelta(s)).Some? {
      assert r.trace == p + [] + [];
      QuietTail(p, [], []);
    } else if s.GetBool(DisableStatusCheck) {
      assert r.trace == p + [] + read.trace;
      QuietTail(p, [], read.trace);
    } else if b.waitForState(UpdateWait(s)).Some? {
      assert r.trace == p + w + [];
      QuietTail(p, w, []);
    } else {
      assert r.trace == p + w + read.trace;
      QuietTail(p, w, read.trace);
    }
  }

  /** An update with changes and a ready client issues one update request and no create or delete. */
  lemma {:induction false} ChangedUpdateCounts(s: Snapshot, b: Backend)
    requires b.Ready() && AnyTrackedChange(s)
    ensures Count(UpdateSpec(s, b).trace, UpdateKind) == 1
    ensures Count(UpdateSpec(s, b).trace, CreateKind) == 0 && Count(UpdateSpec(s, b).trace, DeleteKind) == 0
  {
    var trace := UpdateSpec(s, b).trace;
    var c := UpdateZone(s.id, UpdateDelta(s));
    UpdateTailOnlyWaitsAndReads(s, b);
    QuietAfterThree(trace, NewClient(b.region), SetAuthHeader, c);
    CountOfThree(NewClient(b.region), SetAuthHeader, c, UpdateKind);
    CountOfThree(NewClient(b.region), SetAuthHeader, c, CreateKind);
    CountOfThree(NewClient(b.region), SetAuthHeader, c, DeleteKind);
  }

  /** An update whose client cannot be built or authenticated issues no zone request and never waits. */
  lemma UnreadyUpdateIssuesNothing(s: Snapshot, b: Backend)
    requires !b.Ready()
    ensures Count(UpdateSpec(s, b).trace, CreateKind) == 0 && Count(UpdateSpec(s, b).trace, GetKind) == 0
    ensures Count(UpdateSpec(s, b).trace, UpdateKind) == 0 && Count(UpdateSpec(s, b).trace, DeleteKind) == 0
    ensures Count(UpdateSpec(s, b).trace, WaitKind) == 0
  {
    var t := UpdateSpec(s, b).trace;
    if b.clientError.None? && !AnyTrackedChange(s) {
      assert t == [NewClient(b.region)] + ReadSpec(s, b).trace;
    }
    assert forall i :: 0 <= i < |t| ==> t[i].NewClient? || t[i].SetAuthHeader?;
    NoMutations(t);
    CountZero(t, GetKind);
    CountZero(t, WaitKind);
  }

  /**
   * An update issues the update request exactly once when the client is
   * ready and a tracked attribute changed, and never otherwise; it never
   * creates or deletes.
   */
  lemma {:induction false} UpdateCallsExactlyWhenChanged(s: Snapshot, b: Backend)
    ensures Count(UpdateSpec(s, b).trace, UpdateKind) == if b.Ready() && AnyTrackedChange(s) then 1 else 0
    ensures Count(UpdateSpec(s, b).trace, CreateKind) == 0 && Count(UpdateSpec(s, b).trace, DeleteKind) == 0
  {
    if b.clientError.None? && !AnyTrackedChange(s) {
      NoChangeIsJustRead(s, b);
    } else if b.Ready() {
      ChangedUpdateCounts(s, b);
    } else {
      UnreadyUpdateIssuesNothing(s, b);
    }
  }

  /** Every update request an update issues carries the delta of the changed attributes. */
  lemma UpdateSendsOnlyTheDelta(s: Snapshot, b: Backend)
    ensures forall i :: 0 <= i < |UpdateSpec(s, b).trace| && UpdateSpec(s, b).trace[i].UpdateZone? ==>
              UpdateSpec(s, b).trace[i] == UpdateZone(s.id, UpdateDelta(s))
  {
    var t := UpdateSpec(s, b).trace;
    if b.Ready() && AnyTrackedChange(s) {
      UpdateTailOnlyWaitsAndReads(s, b);
      var p := UpdatePrefix(s, b);
      assert forall i :: 0 <= i < 3 ==> t[i] == p[i];
    } else if b.clientError.None? && !AnyTrackedChange(s) {
      NoChangeIsJustRead(s, b);
      CountZero(t, UpdateKind);
    } else if b.clientError.Some? {
      assert t == [NewClient(b.region)];
    } else {
      assert t == [NewClient(b.region), SetAuthHeader];
    }
  }
}
