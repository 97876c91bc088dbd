/**
 * The DNS service as the handlers see it: the request and response records of
 * the zones API, the abstract calls a handler issues (recorded in a trace),
 * and a `Backend` that gives each call's outcome. The backend's answers are
 * uninterpreted: any function of the request is a possible service.
 */
module ZoneClient {
  import opened Wrappers
  import opened ZoneSchema
  import opened ResourceState

  /** A zone as the service reports it. */
  datatype Zone = Zone(
    id: string,
    name: string,
    email: string,
    description: string,
    ttl: int,
    zoneType: string,
    attributes: map<string, string>,
    masters: set<string>,
    projectId: string)

  /** An error from the service; `notFound` marks the "no such zone" answer. */
  datatype ClientError = ClientError(message: string, notFound: bool)

  /** The body of a zone create request, with the driver-specific extra options. */
  datatype CreateOpts = CreateOpts(
    name: string,
    zoneType: string,
    ttl: int,
    email: string,
    description: string,
    attributes: map<string, string>,
    masters: set<string>,
    valueSpecs: map<string, string>)

  /** The body of a zone update request; an absent field is not sent. */
  datatype UpdateOpts = UpdateOpts(
    email: Option<string>,
    ttl: Option<int>,
    masters: Option<set<string>>,
    description: Option<string>)
  {
    /** The value carried for an attribute, `Null` when the request does not carry it. */
    function Sent(key: Key): Value
    {
      if key == Email && email.Some? then Str(email.value)
      else if key == Ttl && ttl.Some? then Int(ttl.value)
      else if key == Masters && masters.Some? then StrSet(masters.value)
      else if key == Description && description.Some? then Str(description.value)
      else Null
    }
  }

  const EMPTY_UPDATE := UpdateOpts(None, None, None, None)

  /** What a state waiter is asked to do: poll one zone with one configuration. */
  datatype WaitRequest = WaitRequest(
    zoneId: string,
    conf: StateChangeConf,
    retried: bool)  // wrapped in the SDK's retry loop (the create phase)

  /** One abstract call a handler makes. */
  datatype Call =
    | NewClient(region: string)
    | SetAuthHeader
    | CreateZone(createOpts: CreateOpts)
    | GetZone(getId: string)
    | UpdateZone(updateId: string, updateOpts: UpdateOpts)
    | DeleteZone(deleteId: string)
    | WaitFor(req: WaitRequest)
  {
    /** Whether the call changes a zone on the service. */
    predicate Mutates()
    {
      CreateZone? || UpdateZone? || DeleteZone?
    }

    function Kind(): CallKind
    {
      match this
      case NewClient(_) => ClientKind
      case SetAuthHeader => AuthKind
      case CreateZone(_) => CreateKind
      case GetZone(_) => GetKind
      case UpdateZone(_, _) => UpdateKind
      case DeleteZone(_) => DeleteKind
      case WaitFor(_) => WaitKind
    }
  }

  datatype CallKind = ClientKind | AuthKind | CreateKind | GetKind | UpdateKind | DeleteKind | WaitKind

  /** The number of calls of one kind in a trace. */
  function Count(t: seq<Call>, k: CallKind): (n: nat)
    ensures n <= |t|
  {
    if t == [] then 0 else (if t[0].Kind() == k then 1 else 0) + Count(t[1..], k)
  }

  /** A trace holds no call of a kind exactly when its count for that kind is zero. */
  lemma {:induction false} CountZero(t: seq<Call>, k: CallKind)
    ensures Count(t, k) == 0 <==> forall i :: 0 <= i < |t| ==> t[i].Kind() != k
  {
    if t != [] {
      CountZero(t[1..], k);
      assert forall i :: 1 <= i < |t| ==> t[i] == t[1..][i - 1];
    }
  }

  /** A trace without calls that change a zone counts no create, update or delete. */
  lemma NoMutations(t: seq<Call>)
    requires forall i :: 0 <= i < |t| ==> !t[i].Mutates()
    ensures Count(t, CreateKind) == 0 && Count(t, UpdateKind) == 0 && Count(t, DeleteKind) == 0
  {
    CountZero(t, CreateKind);
    CountZero(t, UpdateKind);
    CountZero(t, DeleteKind);
  }

  lemma {:induction false} CountAppend(a: seq<Call>, b: seq<Call>, k: CallKind)
    ensures Count(a + b, k) == Count(a, k) + Count(b, k)
  {
    if a != [] {
      assert (a + b)[1..] == a[1..] + b;
      CountAppend(a[1..], b, k);
    } else {
      assert a + b == b;
    }
  }

  /**
   * The service and its client library, reduced to the outcomes of the calls:
   * the region the client is built for, whether building the client or
   * setting its auth header fails, and the answer to each request. A wait
   * answers `None` when the zone reached a target state, or an error message.
   */
  datatype Backend = Backend(
    region: string,
    clientError: Option<string>,
    authError: Option<string>,
    create: CreateOpts -> Result<Zone, ClientError>,
    get: string -> Result<Zone, ClientError>,
    update: (string, UpdateOpts) -> Option<ClientError>,
    delete: string -> Option<ClientError>,
    waitForState: WaitRequest -> Option<string>)
  {
    /** Building the client and setting its auth header both succeed. */
    predicate Ready()
    {
      clientError.None? && authError.None?
    }
  }
}
