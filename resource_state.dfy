/**
 * The Terraform resource data the handlers read and write: the resource ID,
 * the current attribute values, the prior values they are compared against
 * for change detection, and the user-configured per-phase timeouts.
 */
module ResourceState {
  import opened Wrappers
  import opened ZoneSchema

  /** An attribute value, by schema kind; `Null` is an attribute that is not set. */
  datatype Value =
    | Null
    | Str(s: string)
    | Int(i: int)
    | Bool(b: bool)
    | StrSet(elems: set<string>)
    | StrMap(entries: map<string, string>)

  function Lookup(m: map<Key, Value>, key: Key): Value
  {
    if key in m then m[key] else Null
  }

  /** The schema kind a value belongs to; `Null` belongs to none. */
  function KindOf(v: Value): Option<Kind>
  {
    match v
    case Null => None
    case Str(_) => Some(TypeString)
    case Int(_) => Some(TypeInt)
    case Bool(_) => Some(TypeBool)
    case StrSet(_) => Some(TypeSet)
    case StrMap(_) => Some(TypeMap)
  }

  /** The zero value of a schema kind, which the SDK reads for an unset attribute. */
  function Zero(k: Kind): Value
  {
    match k
    case TypeString => Str("")
    case TypeInt => Int(0)
    case TypeBool => Bool(false)
    case TypeMap => StrMap(map[])
    case TypeSet => StrSet({})
  }

  /** A value-level picture of the resource data at one point of a handler. */
  datatype Snapshot = Snapshot(
    id: string,
    fields: map<Key, Value>,
    prior: map<Key, Value>,
    timeouts: map<Phase, nat>)
  {
    function Get(key: Key): Value
    {
      Lookup(fields, key)
    }

    /** The typed reads; an unset or differently typed value reads as the type's zero value. */
    function GetString(key: Key): string
    {
      match Get(key)
      case Str(v) => v
      case _ => ""
    }

    function GetInt(key: Key): int
    {
      match Get(key)
      case Int(v) => v
      case _ => 0
    }

    function GetBool(key: Key): bool
    {
      match Get(key)
      case Bool(v) => v
      case _ => false
    }

    function GetSet(key: Key): set<string>
    {
      match Get(key)
      case StrSet(v) => v
      case _ => {}
    }

    function GetMap(key: Key): map<string, string>
    {
      match Get(key)
      case StrMap(v) => v
      case _ => map[]
    }

    /**
     * The value the handlers read for a declared attribute: what is stored,
     * or the zero value of the attribute's schema kind when nothing of that
     * kind is stored.
     */
    function Typed(key: Key): Value
    {
      match Schema(key).kind
      case TypeString => Str(GetString(key))
      case TypeInt => Int(GetInt(key))
      case TypeBool => Bool(GetBool(key))
      case TypeMap => StrMap(GetMap(key))
      case TypeSet => StrSet(GetSet(key))
    }

    /**
     * An attribute has changed when its value, read with the kind's zero value
     * for an unset attribute, differs from the prior state's value read alike.
     */
    predicate HasChange(key: Key)
    {
      this.(fields := prior).Typed(key) != Typed(key)
    }

    /** The timeout in force for a phase: the configured one, else the resource default. */
    function Timeout(p: Phase): (seconds: nat)
    {
      if p in timeouts then timeouts[p] else DefaultTimeout(p)
    }

    function WithId(v: string): Snapshot
    {
      this.(id := v)
    }

    function With(key: Key, v: Value): Snapshot
    {
      this.(fields := fields[key := v])
    }
  }

  /**
   * A typed read yields a value of the attribute's schema kind: the stored
   * value when it has that kind, and the kind's zero value otherwise
   * (nothing stored, or a value of another kind).
   */
  lemma TypedMeaning(s: Snapshot, key: Key)
    ensures KindOf(s.Typed(key)) == Some(Schema(key).kind)
    ensures KindOf(s.Get(key)) == Some(Schema(key).kind) ==> s.Typed(key) == s.Get(key)
    ensures KindOf(s.Get(key)) != Some(Schema(key).kind) ==> s.Typed(key) == Zero(Schema(key).kind)
  {
  }

  /**
   * Change detection compares typed values: equal stored values never count
   * as a change, nor does an unset attribute against its kind's zero value;
   * between two values of the attribute's kind it is plain inequality.
   */
  lemma HasChangeComparesTypedValues(s: Snapshot, key: Key)
    ensures Lookup(s.prior, key) == s.Get(key) ==> !s.HasChange(key)
    ensures s.Get(key) == Null && Lookup(s.prior, key) == Zero(Schema(key).kind) ==> !s.HasChange(key)
    ensures Lookup(s.prior, key) == Null && s.Get(key) == Zero(Schema(key).kind) ==> !s.HasChange(key)
    ensures KindOf(s.Get(key)) == Some(Schema(key).kind) && KindOf(Lookup(s.prior, key)) == Some(Schema(key).kind) ==>
              (s.HasChange(key) <==> Lookup(s.prior, key) != s.Get(key))
  {
    var p := s.(fields := s.prior);
    assert p.Get(key) == Lookup(s.prior, key);
    TypedMeaning(s, key);
    TypedMeaning(p, key);
  }

  /** Snapshots that agree on an attribute's typed value agree on its typed read, kind by kind. */
  lemma SameString(s: Snapshot, s': Snapshot, key: Key)
    requires Schema(key).kind == TypeString && s.Typed(key) == s'.Typed(key)
    ensures s.GetString(key) == s'.GetString(key)
  {
  }

  lemma SameInt(s: Snapshot, s': Snapshot, key: Key)
    requires Schema(key).kind == TypeInt && s.Typed(key) == s'.Typed(key)
    ensures s.GetInt(key) == s'.GetInt(key)
  {
  }

  lemma SameSet(s: Snapshot, s': Snapshot, key: Key)
    requires Schema(key).kind == TypeSet && s.Typed(key) == s'.Typed(key)
    ensures s.GetSet(key) == s'.GetSet(key)
  {
  }

  lemma SameMap(s: Snapshot, s': Snapshot, key: Key)
    requires Schema(key).kind == TypeMap && s.Typed(key) == s'.Typed(key)
    ensures s.GetMap(key) == s'.GetMap(key)
  {
  }

  /** The timeout a phase runs under: the one configured for it, else ten minutes. */
  lemma TimeoutInForce(s: Snapshot, p: Phase)
    ensures p in s.timeouts ==> s.Timeout(p) == s.timeouts[p]
    ensures p !in s.timeouts ==> s.Timeout(p) == 600
  {
  }

  /** The resource data object that the handlers update in place. */
  class ResourceData {
    var id: string
    var fields: map<Key, Value>
    const prior: map<Key, Value>
    const timeouts: map<Phase, nat>

    constructor (id: string, fields: map<Key, Value>, prior: map<Key, Value>, timeouts: map<Phase, nat>)
      ensures Current() == Snapshot(id, fields, prior, timeouts)
    {
      this.id := id;
      this.fields := fields;
      this.prior := prior;
      this.timeouts := timeouts;
    }

    function Current(): Snapshot
      reads this
    {
      Snapshot(id, fields, prior, timeouts)
    }

    method SetId(v: string)
      modifies this
      ensures Current() == old(Current()).WithId(v)
    {
      id := v;
    }

    method Set(key: Key, v: Value)
      modifies this
      ensures fields == old(fields)[key := v] && id == old(id)
    {
      fields := fields[key := v];
    }
  }
}
