/** The `Language` model: optional `code`, required `name`. */
module LanguageModel {
  import opened Wrappers
  import opened Json
  import opened KeyedDecoding

  /** A language; equality is structural, as with a synthesized `Equatable`. */
  datatype Language = Language(code: Option<string>, name: string)

  /** The keys a language object is read from. */
  const LanguageKeys: set<string> := {"code", "name"}

  /** `j` is a JSON object that stands for the language `l`; other members are ignored. */
  predicate Describes(j: Json, l: Language) {
    && j.JObject?
    && HoldsOptionalString(j.members, "code", l.code)
    && HoldsString(j.members, "name", l.name)
  }

  /** The synthesized `init(from:)`: the members in declaration order, the first fault reported. */
  function DecodeLanguage(j: Json): (r: Result<Language, DecodeError>)
    ensures r.Success? ==> Describes(j, r.value)
    ensures !j.JObject? ==> r.Failure?
  {
    var members :- ObjectMembers(j);
    var code :- OptionalString(members, "code");
    var name :- RequiredString(members, "name");
    Success(Language(code, name))
  }

  /** Every object that stands for a language decodes to exactly that language. */
  lemma DecodeLanguageComplete(j: Json, l: Language)
    requires Describes(j, l)
    ensures DecodeLanguage(j) == Success(l)
  {
  }

  /** Decoding fails exactly when the object stands for no language at all. */
  lemma DecodeLanguageFailsIffNoLanguage(j: Json)
    ensures DecodeLanguage(j).Failure? <==> forall l :: !Describes(j, l)
  {
    if DecodeLanguage(j).Failure? {
      forall l ensures !Describes(j, l) {
        if Describes(j, l) { DecodeLanguageComplete(j, l); }
      }
    }
  }

  /** The synthesized `encode(to:)`: `code` only when it has a value, then `name`. */
  function EncodeLanguage(l: Language): (j: Json)
    ensures Describes(j, l)
    ensures j.JObject? && (l.code.None? <==> !HasMember(j.members, "code"))
  {
    var members := EncodeIfPresent("code", l.code) + [("name", JString(l.name))];
    if l.code.Some? then LookupAt(members, 0); LookupAt(members, 1); JObject(members)
    else LookupMissing(members, "code"); LookupAt(members, 0); JObject(members)
  }

  /** Encoding then decoding gives back an equal language: a nil code stays nil, the name is kept. */
  lemma LanguageRoundTrip(l: Language)
    ensures DecodeLanguage(EncodeLanguage(l)) == Success(l)
  {
    DecodeLanguageComplete(EncodeLanguage(l), l);
  }

  /** A member with a key outside the model can be added anywhere without changing the decode. */
  lemma {:induction false} LanguageIgnoresUnknownMember(pre: seq<(string, Json)>, extra: (string, Json), post: seq<(string, Json)>)
    requires extra.0 !in LanguageKeys
    ensures DecodeLanguage(JObject(pre + [extra] + post)) == DecodeLanguage(JObject(pre + post))
  {
    forall key | key in LanguageKeys
      ensures Lookup(pre + [extra] + post, key) == Lookup(pre + post, key)
    {
      LookupSkipsOtherKey(pre, extra, post, key);
    }
  }

  /** A language object without a `code` member decodes with a nil code. */
  lemma CodeAbsentIsNil(name: string)
    ensures DecodeLanguage(JObject([("name", JString(name))])) == Success(Language(None, name))
  {
    var m := [("name", JString(name))];
    LookupAt(m, 0);
    LookupMissing(m, "code");
    DecodeLanguageComplete(JObject(m), Language(None, name));
  }

  /** `"code": null` decodes to a nil code. */
  lemma CodeNullIsNil(name: string)
    ensures DecodeLanguage(JObject([("code", JNull), ("name", JString(name))])) == Success(Language(None, name))
  {
    var m := [("code", JNull), ("name", JString(name))];
    LookupAt(m, 0);
    LookupAt(m, 1);
    DecodeLanguageComplete(JObject(m), Language(None, name));
  }

  /** A language object without a `name` member is refused, whatever its code. */
  lemma NameMissingFails(members: seq<(string, Json)>)
    requires !HasMember(members, "name")
    ensures DecodeLanguage(JObject(members)).Failure?
  {
  }

  /**
   * Two languages are equal exactly when code and name are. This holds by
   * construction: a datatype's equality is structural, which is what the
   * synthesized `Equatable` gives the struct.
   */
  lemma LanguageEqualityIsMemberwise(a: Language, b: Language)
    ensures a == b <==> a.code == b.code && a.name == b.name
  {
  }
}
