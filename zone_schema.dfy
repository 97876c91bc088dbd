/**
 * The declarative part of the openstack_dns_zone_v2 resource: its attribute
 * names and schema flags, the validator on `type`, the per-phase default
 * timeouts and the wait ("state change") settings each phase polls with.
 * Durations are whole seconds.
 */
module ZoneSchema {

  /** The attributes the resource declares. */
  datatype Key =
    | Region | ProjectId | Name | Email | Type | Attributes
    | Ttl | Description | Masters | ValueSpecs | DisableStatusCheck
  {
    /** The attribute's name in the schema. */
    function Label(): string
    {
      match this
      case Region => "region"
      case ProjectId => "project_id"
      case Name => "name"
      case Email => "email"
      case Type => "type"
      case Attributes => "attributes"
      case Ttl => "ttl"
      case Description => "description"
      case Masters => "masters"
      case ValueSpecs => "value_specs"
      case DisableStatusCheck => "disable_status_check"
    }
  }

  datatype Kind = TypeString | TypeInt | TypeBool | TypeMap | TypeSet

  /** The flags of one schema attribute that bear on the lifecycle. */
  datatype Attribute = Attribute(kind: Kind, required: bool, computed: bool, forceNew: bool)

  /** The resource's schema. */
  function Schema(k: Key): Attribute
  {
    match k
    case Region => Attribute(TypeString, false, true, true)
    case ProjectId => Attribute(TypeString, false, true, true)
    case Name => Attribute(TypeString, true, false, true)
    case Email => Attribute(TypeString, false, false, false)
    case Type => Attribute(TypeString, false, true, true)
    case Attributes => Attribute(TypeMap, false, false, true)
    case Ttl => Attribute(TypeInt, false, true, false)
    case Description => Attribute(TypeString, false, false, false)
    case Masters => Attribute(TypeSet, false, false, false)
    case ValueSpecs => Attribute(TypeMap, false, false, true)
    case DisableStatusCheck => Attribute(TypeBool, false, false, false)
  }

  /** The attributes that the update handler may send to the remote zone. */
  const MUTABLE_FIELDS: set<Key> := {Email, Ttl, Masters, Description}

  /**
   * The updatable attributes are exactly those the schema does not force to
   * replacement, apart from the local-only `disable_status_check` switch.
   * Everything else (name, type, attributes, value_specs, region, project_id)
   * can only change by recreating the zone.
   */
  lemma MutableFieldsAreInPlaceAttributes()
    ensures forall k: Key :: k in MUTABLE_FIELDS <==> !Schema(k).forceNew && k != DisableStatusCheck
    ensures Name !in MUTABLE_FIELDS && Type !in MUTABLE_FIELDS
    ensures Attributes !in MUTABLE_FIELDS && ValueSpecs !in MUTABLE_FIELDS
  {
  }

  const VALID_TYPES: seq<string> := ["PRIMARY", "SECONDARY"]

  /**
   * Case-sensitive membership validation of a string attribute: no errors
   * when the value is one of `valid`, one error otherwise.
   */
  function StringInSlice(valid: seq<string>, key: string, v: string): (errors: seq<string>)
    ensures errors == [] <==> v in valid
    ensures |errors| <= 1
  {
    if v in valid then [] else ["expected " + key + " to be one of the allowed values, got " + v]
  }

  /** The validator attached to `type`. */
  function ValidateType(v: string): (errors: seq<string>)
  {
    StringInSlice(VALID_TYPES, Type.Label(), v)
  }

  lemma ValidTypes(v: string)
    ensures ValidateType(v) == [] <==> v == "PRIMARY" || v == "SECONDARY"
  {
  }

  /** The three phases that carry a timeout and wait for the zone to settle. */
  datatype Phase = CreatePhase | UpdatePhase | DeletePhase

  /** Every phase defaults to a ten-minute timeout. */
  const DEFAULT_TIMEOUT: nat := 10 * 60

  function DefaultTimeout(p: Phase): (seconds: nat)
    ensures seconds == 600
  {
    match p
    case CreatePhase => DEFAULT_TIMEOUT
    case UpdatePhase => DEFAULT_TIMEOUT
    case DeletePhase => DEFAULT_TIMEOUT
  }

  const WAIT_DELAY: nat := 5
  const WAIT_MIN_TIMEOUT: nat := 3

  const ACTIVE := "ACTIVE"
  const PENDING := "PENDING"
  const DELETED := "DELETED"

  /** The polling parameters handed to the SDK's state waiter. */
  datatype StateChangeConf = StateChangeConf(
    target: seq<string>,
    pending: seq<string>,
    timeout: nat,
    delay: nat,
    minTimeout: nat)

  /**
   * The wait configuration of a phase, given the timeout in force for it.
   * Create and update wait for ACTIVE through PENDING; delete waits for
   * DELETED through ACTIVE or PENDING. All wait 5 s before the first poll and
   * at least 3 s between polls.
   */
  function WaitConf(p: Phase, timeout: nat): (c: StateChangeConf)
    ensures p != DeletePhase ==> c.target == [ACTIVE] && c.pending == [PENDING]
    ensures p == DeletePhase ==> c.target == [DELETED] && c.pending == [ACTIVE, PENDING]
    ensures c.timeout == timeout && c.delay == 5 && c.minTimeout == 3
    ensures forall st :: st in c.target ==> st !in c.pending
  {
    match p
    case CreatePhase => StateChangeConf([ACTIVE], [PENDING], timeout, WAIT_DELAY, WAIT_MIN_TIMEOUT)
    case UpdatePhase => StateChangeConf([ACTIVE], [PENDING], timeout, WAIT_DELAY, WAIT_MIN_TIMEOUT)
    case DeletePhase => StateChangeConf([DELETED], [ACTIVE, PENDING], timeout, WAIT_DELAY, WAIT_MIN_TIMEOUT)
  }

  /** With the default timeouts every phase's deadline leaves room for the initial delay. */
  lemma DefaultWaitsOutlastDelay(p: Phase)
    ensures WaitConf(p, DefaultTimeout(p)).timeout >= WaitConf(p, DefaultTimeout(p)).delay
    ensures WaitConf(p, DefaultTimeout(p)).minTimeout > 0
  {
  }
}
