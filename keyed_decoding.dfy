/**
 * The rules by which Swift's synthesized `Codable` conformances read and
 * write one member of a JSON object through a keyed container: a
 * non-optional property is read with `decode(_:forKey:)`, an optional one
 * with `decodeIfPresent(_:forKey:)`, and an optional one is written with
 * `encodeIfPresent(_:forKey:)`, which leaves a nil value out.
 */
module KeyedDecoding {
  import opened Wrappers
  import opened Json

  /** One step of a coding path: an object key or an array index. */
  datatype PathStep = Key(name: string) | Index(i: nat)

  /** Why a decode failed, with the coding path of the value at fault. */
  datatype DecodeError =
    | KeyNotFound(path: seq<PathStep>, key: string)
    | ValueNotFound(path: seq<PathStep>)
    | TypeMismatch(path: seq<PathStep>)

  /** The same error, seen from the container one step further out. */
  function Under(step: PathStep, e: DecodeError): (r: DecodeError)
    ensures r.KeyNotFound? == e.KeyNotFound? && r.ValueNotFound? == e.ValueNotFound?
    ensures r.path == [step] + e.path
  {
    match e
    case KeyNotFound(path, key) => KeyNotFound([step] + path, key)
    case ValueNotFound(path) => ValueNotFound([step] + path)
    case TypeMismatch(path) => TypeMismatch([step] + path)
  }

  /** A result whose error, if any, is moved one step further out. */
  function Within<T>(step: PathStep, r: Result<T, DecodeError>): (w: Result<T, DecodeError>)
    ensures w.Success? <==> r.Success?
    ensures r.Success? ==> w.value == r.value
  {
    match r
    case Success(v) => Success(v)
    case Failure(e) => Failure(Under(step, e))
  }

  /** `decode(String.self, forKey: key)`: the member must be present, non-null and a string. */
  function RequiredString(members: seq<(string, Json)>, key: string): (r: Result<string, DecodeError>)
    ensures r.Success? <==> Lookup(members, key).Some? && Lookup(members, key).value.JString?
    ensures r.Success? ==> Lookup(members, key) == Some(JString(r.value))
    ensures !HasMember(members, key) ==> r == Failure(KeyNotFound([], key))
    ensures Lookup(members, key) == Some(JNull) ==> r == Failure(ValueNotFound([Key(key)]))
  {
    match Lookup(members, key)
    case None => Failure(KeyNotFound([], key))
    case Some(JNull) => Failure(ValueNotFound([Key(key)]))
    case Some(JString(s)) => Success(s)
    case Some(_) => Failure(TypeMismatch([Key(key)]))
  }

  /** `decodeIfPresent(String.self, forKey: key)`: absent and null both give nil; any other non-string fails. */
  function OptionalString(members: seq<(string, Json)>, key: string): (r: Result<Option<string>, DecodeError>)
    ensures r == Success(None) <==> Lookup(members, key) == None || Lookup(members, key) == Some(JNull)
    ensures r.Success? && r.value.Some? <==> Lookup(members, key).Some? && Lookup(members, key).value.JString?
    ensures r.Success? && r.value.Some? ==> Lookup(members, key) == Some(JString(r.value.value))
  {
    match Lookup(members, key)
    case None => Success(None)
    case Some(JNull) => Success(None)
    case Some(JString(s)) => Success(Some(s))
    case Some(_) => Failure(TypeMismatch([Key(key)]))
  }

  /** `decode(T.self, forKey: key)` for a nested type: the member must be present; its value is decoded next. */
  function RequiredValue(members: seq<(string, Json)>, key: string): (r: Result<Json, DecodeError>)
    ensures r.Success? <==> HasMember(members, key)
    ensures r.Success? ==> Lookup(members, key) == Some(r.value)
    ensures r.Failure? ==> r.error == KeyNotFound([], key)
  {
    match Lookup(members, key)
    case None => Failure(KeyNotFound([], key))
    case Some(v) => Success(v)
  }

  /**
   * `container(keyedBy:)` at the start of a synthesized `init(from:)`:
   * the value must be an object; null and other values are refused.
   */
  function ObjectMembers(j: Json): (r: Result<seq<(string, Json)>, DecodeError>)
    ensures r.Success? <==> j.JObject?
    ensures r.Success? ==> j == JObject(r.value)
    ensures j.JNull? ==> r == Failure(ValueNotFound([]))
  {
    match j
    case JObject(members) => Success(members)
    case JNull => Failure(ValueNotFound([]))
    case _ => Failure(TypeMismatch([]))
  }

  /** The member `key` holds the string `s`. */
  predicate HoldsString(members: seq<(string, Json)>, key: string, s: string) {
    Lookup(members, key) == Some(JString(s))
  }

  /** The member `key` stands for the optional string `o`: nil when absent or null. */
  predicate HoldsOptionalString(members: seq<(string, Json)>, key: string, o: Option<string>) {
    match o
    case None => Lookup(members, key) == None || Lookup(members, key) == Some(JNull)
    case Some(s) => Lookup(members, key) == Some(JString(s))
  }

  /**
   * `encodeIfPresent` of an optional string: what it writes reads back as
   * `o`, and a nil value writes no member at all (not a null one).
   */
  function EncodeIfPresent(key: string, o: Option<string>): (r: seq<(string, Json)>)
    ensures HoldsOptionalString(r, key, o)
    ensures o.None? <==> r == []
    ensures |r| <= 1 && forall i :: 0 <= i < |r| ==> r[i].0 == key
  {
    match o
    case None => []
    case Some(s) => [(key, JString(s))]
  }
}
