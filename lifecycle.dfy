/**
 * What the lifecycle handlers share: their diagnostics, the record of one
 * handler run, and the treatment of a "not found" answer.
 */
module Lifecycle {
  import opened Wrappers
  import opened ResourceState
  import opened ZoneClient

  datatype FailureKind =
    | ClientSetupFailed   // building the DNS client
    | AuthHeaderFailed    // setting the client's auth headers
    | CreateFailed
    | WaitActiveFailed    // waiting for ACTIVE after create or update
    | RetrieveFailed
    | UpdateFailed
    | DeleteFailed
    | WaitDeletedFailed   // waiting for DELETED after delete

  /** An error diagnostic: what failed, the resource ID its message names (if any), the cause. */
  datatype Diagnostic = Diagnostic(kind: FailureKind, zoneId: Option<string>, cause: string)

  /** What a handler does: its diagnostic (None on success), its calls, the resource data after it. */
  datatype Run = Run(err: Option<Diagnostic>, trace: seq<Call>, after: Snapshot)

  /** A run preceded by some calls. */
  function After(prefix: seq<Call>, r: Run): Run
  {
    r.(trace := prefix + r.trace)
  }

  /** The run of a handler that stops at its first failure, before any state change. */
  function Failed(kind: FailureKind, zoneId: Option<string>, cause: string, trace: seq<Call>, s: Snapshot): Run
  {
    Run(Some(Diagnostic(kind, zoneId, cause)), trace, s)
  }

  /**
   * Building the client and setting its auth header, the steps every handler
   * starts with; `None` when both succeed.
   */
  function ClientFailure(b: Backend, s: Snapshot): (r: Option<Run>)
    ensures r.None? <==> b.Ready()
    ensures r.Some? ==> r.value.err.Some? && r.value.after == s &&
                        |r.value.trace| >= 1 && r.value.trace[0] == NewClient(b.region) &&
                        forall i :: 0 <= i < |r.value.trace| ==> r.value.trace[i].NewClient? || r.value.trace[i].SetAuthHeader?
  {
    if b.clientError.Some? then Some(Failed(ClientSetupFailed, None, b.clientError.value, [NewClient(b.region)], s))
    else if b.authError.Some? then
      Some(Failed(AuthHeaderFailed, None, b.authError.value, [NewClient(b.region), SetAuthHeader], s))
    else None
  }

  /**
   * The handling of a failed call that may mean "already gone": a not-found
   * error clears the resource ID and is not an error; any other error is
   * reported with the resource ID.
   */
  method CheckDeleted(d: ResourceData, e: ClientError, kind: FailureKind) returns (err: Option<Diagnostic>)
    modifies d
    ensures e.notFound ==> err.None? && d.Current() == old(d.Current()).WithId("")
    ensures !e.notFound ==> err == Some(Diagnostic(kind, Some(old(d.id)), e.message)) && d.Current() == old(d.Current())
  {
    if e.notFound {
      d.SetId("");
      return None;
    }
    return Some(Diagnostic(kind, Some(d.id), e.message));
  }

  /** A three-call trace counts each of its calls. */
  lemma {:induction false} CountOfThree(a: Call, b: Call, c: Call, k: CallKind)
    ensures Count([a, b, c], k) ==
              (if a.Kind() == k then 1 else 0) + (if b.Kind() == k then 1 else 0) + (if c.Kind() == k then 1 else 0)
  {
    assert [a] + [b, c] == [a, b, c] && [b] + [c] == [b, c];
    CountAppend([a], [b, c], k);
    CountAppend([b], [c], k);
    CountOne(a, k);
    CountOne(b, k);
    CountOne(c, k);
  }

  lemma CountOne(a: Call, k: CallKind)
    ensures Count([a], k) == if a.Kind() == k then 1 else 0
  {
    assert [a][1..] == [];
  }

  /**
   * A trace that starts with three given calls and changes no zone after
   * them creates, updates and deletes exactly as often as those three calls.
   */
  lemma QuietAfterThree(t: seq<Call>, a: Call, b: Call, c: Call)
    requires |t| >= 3 && t[..3] == [a, b, c]
    requires forall i :: 3 <= i < |t| ==> !t[i].Mutates()
    ensures Count(t, CreateKind) == Count([a, b, c], CreateKind)
    ensures Count(t, UpdateKind) == Count([a, b, c], UpdateKind)
    ensures Count(t, DeleteKind) == Count([a, b, c], DeleteKind)
  {
    var rest := t[3..];
    assert t == [a, b, c] + rest;
    assert forall i :: 0 <= i < |rest| ==> rest[i] == t[i + 3];
    NoMutations(rest);
    CountAppend([a, b, c], rest, CreateKind);
    CountAppend([a, b, c], rest, UpdateKind);
    CountAppend([a, b, c], rest, DeleteKind);
  }

  /** Calls that change no zone, appended to a prefix, leave the prefix in place and add no such change. */
  lemma QuietTail(p: seq<Call>, waits: seq<Call>, rest: seq<Call>)
    requires forall i :: 0 <= i < |waits| ==> waits[i].WaitFor?
    requires forall i :: 0 <= i < |rest| ==> !rest[i].Mutates()
    ensures (p + waits + rest)[..|p|] == p
    ensures forall i :: |p| <= i < |p + waits + rest| ==> !(p + waits + rest)[i].Mutates()
  {
    var t := p + waits + rest;
    assert forall i :: |p| <= i < |p| + |waits| ==> t[i] == waits[i - |p|];
    assert forall i :: |p| + |waits| <= i < |t| ==> t[i] == rest[i - |p| - |waits|];
  }
}
