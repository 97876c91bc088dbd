/** The delete handler: delete the zone and wait for it to be DELETED. */
module ZoneDelete {
  import opened Wrappers
  import opened ZoneSchema
  import opened ResourceState
  import opened ZoneClient
  import opened Lifecycle

  function DeletePrefix(s: Snapshot, b: Backend): seq<Call>
  {
    [NewClient(b.region), SetAuthHeader, DeleteZone(s.id)]
  }

  function DeleteWait(s: Snapshot): WaitRequest
  {
    WaitRequest(s.id, WaitConf(DeletePhase, s.Timeout(DeletePhase)), false)
  }

  /**
   * Delete. A delete request answered "not found" counts as done and clears
   * the resource ID; any other failure is reported and changes nothing. With
   * status checks disabled the handler succeeds right after the request;
   * otherwise it waits for DELETED. Delete never reads, creates or updates,
   * and besides the not-found case never changes the resource data.
   */
  function DeleteSpec(s: Snapshot, b: Backend): (r: Run)
    ensures forall i :: 0 <= i < |r.trace| ==> !r.trace[i].CreateZone? && !r.trace[i].GetZone? && !r.trace[i].UpdateZone?
    ensures r.after == s || r.after == s.WithId("")
    ensures r.err.Some? ==> r.after == s
  {
    match ClientFailure(b, s)
    case Some(failed) => failed
    case None =>
      var t := DeletePrefix(s, b);
      match b.delete(s.id)
      case Some(e) =>
        if e.notFound then Run(None, t, s.WithId(""))
        else Failed(DeleteFailed, Some(s.id), e.message, t, s)
      case None =>
        if s.GetBool(DisableStatusCheck) then Run(None, t, s)
        else
          var w := t + [WaitFor(DeleteWait(s))];
          match b.waitForState(DeleteWait(s))
          case Some(msg) => Failed(WaitDeletedFailed, Some(s.id), msg, w, s)
          case None => Run(None, w, s)
  }

  method Delete(d: ResourceData, b: Backend) returns (err: Option<Diagnostic>, trace: seq<Call>)
    modifies d
    ensures Run(err, trace, d.Current()) == DeleteSpec(old(d.Current()), b)
  {
    trace := [NewClient(b.region)];
    if b.clientError.Some? {
      return Some(Diagnostic(ClientSetupFailed, None, b.clientError.value)), trace;
    }
    trace := trace + [SetAuthHeader];
    if b.authError.Some? {
      return Some(Diagnostic(AuthHeaderFailed, None, b.authError.value)), trace;
    }
    trace := trace + [DeleteZone(d.id)];
    var deleteErr := b.delete(d.id);
    if deleteErr.Some? {
      err := CheckDeleted(d, deleteErr.value, DeleteFailed);
      return;
    }
    if d.Current().GetBool(DisableStatusCheck) {
      return None, trace;
    }
    var req := WaitRequest(d.id, WaitConf(DeletePhase, d.Current().Timeout(DeletePhase)), false);
    trace := trace + [WaitFor(req)];
    var waitErr := b.waitForState(req);
    if waitErr.Some? {
      return Some(Diagnostic(WaitDeletedFailed, Some(d.id), waitErr.value)), trace;
    }
    err := None;
  }

  /**
   * A failed delete request stops before any wait: "not found" succeeds and
   * clears the ID, any other error is reported with the resource ID.
   */
  lemma DeleteFailureStopsBeforeWait(s: Snapshot, b: Backend)
    requires b.Ready() && b.delete(s.id).Some?
    ensures var r := DeleteSpec(s, b);
            var e := b.delete(s.id).value;
            && r.trace == DeletePrefix(s, b)
            && (e.notFound ==> r.err.None? && r.after == s.WithId(""))
            && (!e.notFound ==> r.err == Some(Diagnostic(DeleteFailed, Some(s.id), e.message)) && r.after == s)
  {
  }

  /**
   * After a successful delete request: with status checks disabled the
   * handler returns success at once; otherwise it waits once for DELETED
   * through ACTIVE and PENDING and succeeds exactly when the wait does.
   */
  lemma DeleteAfterRequest(s: Snapshot, b: Backend)
    requires b.Ready() && b.delete(s.id).None?
    ensures var r := DeleteSpec(s, b);
            && (s.GetBool(DisableStatusCheck) ==> r == Run(None, DeletePrefix(s, b), s))
            && DeleteWait(s).conf.target == [DELETED] && DeleteWait(s).conf.pending == [ACTIVE, PENDING]
            && (!s.GetBool(DisableStatusCheck) ==>
                  r.trace == DeletePrefix(s, b) + [WaitFor(DeleteWait(s))] && r.after == s &&
                  (r.err.None? <==> b.waitForState(DeleteWait(s)).None?) &&
                  (r.err.Some? ==> r.err.value.kind == WaitDeletedFailed))
  {
  }

  /**
   * A delete issues the delete request once when the client is ready and
   * waits at most once, only with status checks on.
   */
  lemma {:induction false} DeleteCallCounts(s: Snapshot, b: Backend)
    ensures Count(DeleteSpec(s, b).trace, DeleteKind) == if b.Ready() then 1 else 0
    ensures Count(DeleteSpec(s, b).trace, WaitKind) ==
              if b.Ready() && b.delete(s.id).None? && !s.GetBool(DisableStatusCheck) then 1 else 0
  {
    var t := DeleteSpec(s, b).trace;
    if b.Ready() {
      var p := DeletePrefix(s, b);
      CountOfThree(NewClient(b.region), SetAuthHeader, DeleteZone(s.id), DeleteKind);
      CountOfThree(NewClient(b.region), SetAuthHeader, DeleteZone(s.id), WaitKind);
      if b.delete(s.id).None? && !s.GetBool(DisableStatusCheck) {
        var w := [WaitFor(DeleteWait(s))];
        assert t == p + w;
        CountAppend(p, w, DeleteKind);
        CountAppend(p, w, WaitKind);
        assert w[1..] == [];
      } else {
        assert t == p;
      }
    } else {
      NoMutations(t);
      CountZero(t, WaitKind);
    }
  }

  /** Deleting a zone the service no longer knows succeeds, and so does deleting it again. */
  lemma DeleteOfMissingZoneIsIdempotent(s: Snapshot, b: Backend)
    requires b.Ready()
    requires forall z :: b.delete(z).Some? && b.delete(z).value.notFound
    ensures DeleteSpec(s, b).err.None?
    ensures DeleteSpec(DeleteSpec(s, b).after, b).err.None?
    ensures DeleteSpec(DeleteSpec(s, b).after, b).after == DeleteSpec(s, b).after
  {
  }
}
