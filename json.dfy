/**
 * JSON documents as trees, the form in which the Codable models below see
 * their input and produce their output. Reading bytes into a tree and
 * writing a tree back to bytes are not part of this model.
 */
module Json {
  import opened Wrappers

  /** A raw response body. */
  type Bytes = seq<bv8>

  /** A JSON value. Numbers are integers; an object keeps its members in order. */
  datatype Json =
    | JNull
    | JBool(b: bool)
    | JNumber(n: int)
    | JString(s: string)
    | JArray(items: seq<Json>)
    | JObject(members: seq<(string, Json)>)

  /**
   * The value of the first member named `key`, or `None` when there is
   * none. Objects with a repeated key are outside this model; for them the
   * first occurrence wins here.
   */
  function Lookup(members: seq<(string, Json)>, key: string): Option<Json>
  {
    if |members| == 0 then None
    else if members[0].0 == key then Some(members[0].1)
    else Lookup(members[1..], key)
  }

  /** The object has a member named `key`. */
  predicate HasMember(members: seq<(string, Json)>, key: string) {
    Lookup(members, key).Some?
  }

  /** Lookup finds a value exactly when some member carries the key, and the value it finds is a member's. */
  lemma {:induction false} LookupFindsMember(members: seq<(string, Json)>, key: string)
    ensures HasMember(members, key) <==> exists i :: 0 <= i < |members| && members[i].0 == key
    ensures HasMember(members, key) ==> (key, Lookup(members, key).value) in members
  {
    if |members| > 0 && members[0].0 != key {
      LookupFindsMember(members[1..], key);
      if exists i :: 0 <= i < |members| && members[i].0 == key {
        var i :| 0 <= i < |members| && members[i].0 == key;
        assert members[1..][i - 1].0 == key;
      }
    }
  }

  /** A member named differently from `key` can be inserted anywhere without changing what `key` looks up. */
  lemma {:induction false} LookupSkipsOtherKey(pre: seq<(string, Json)>, other: (string, Json), post: seq<(string, Json)>, key: string)
    requires other.0 != key
    ensures Lookup(pre + [other] + post, key) == Lookup(pre + post, key)
  {
    if |pre| == 0 {
      assert pre + [other] + post == [other] + post;
      assert ([other] + post)[1..] == post;
      assert pre + post == post;
    } else {
      LookupSkipsOtherKey(pre[1..], other, post, key);
      assert (pre + [other] + post)[1..] == pre[1..] + [other] + post;
      assert (pre + post)[1..] == pre[1..] + post;
    }
  }

  /** A key that no member carries looks up nothing. */
  lemma LookupMissing(members: seq<(string, Json)>, key: string)
    requires forall i :: 0 <= i < |members| ==> members[i].0 != key
    ensures Lookup(members, key) == None
  {
    LookupFindsMember(members, key);
  }

  /** A member whose key no earlier member has is the one looked up. */
  lemma {:induction false} LookupAt(members: seq<(string, Json)>, i: nat)
    requires i < |members|
    requires forall j :: 0 <= j < i ==> members[j].0 != members[i].0
    ensures Lookup(members, members[i].0) == Some(members[i].1)
  {
    if i > 0 {
      LookupAt(members[1..], i - 1);
    }
  }
}
