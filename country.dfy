/**
 * The `Country` model: seven required members, two of them nested
 * `Currency` and `Language` objects.
 */
module CountryModel {
  import opened Wrappers
  import opened Json
  import opened KeyedDecoding
  import opened CurrencyModel
  import opened LanguageModel

  /** A country; equality is structural, as with a synthesized `Equatable`. */
  datatype Country = Country(
    capital: string,
    code: string,
    currency: Currency,
    flag: string,
    language: Language,
    name: string,
    region: string)

  /** The members that must hold a string. */
  const StringKeys: set<string> := {"capital", "code", "flag", "name", "region"}

  /** The members that must hold a nested object. */
  const NestedKeys: set<string> := {"currency", "language"}

  /** Every key a country object is read from; all of them are required. */
  const CountryKeys: set<string> := StringKeys + NestedKeys

  /** `j` is a JSON object that stands for the country `c`; other members are ignored. */
  predicate Describes(j: Json, c: Country) {
    && j.JObject?
    && HoldsString(j.members, "capital", c.capital)
    && HoldsString(j.members, "code", c.code)
    && HasMember(j.members, "currency")
    && CurrencyModel.Describes(Lookup(j.members, "currency").value, c.currency)
    && HoldsString(j.members, "flag", c.flag)
    && HasMember(j.members, "language")
    && LanguageModel.Describes(Lookup(j.members, "language").value, c.language)
    && HoldsString(j.members, "name", c.name)
    && HoldsString(j.members, "region", c.region)
  }

  /** The synthesized `init(from:)`: the members in declaration order, the first fault reported. */
  function DecodeCountry(j: Json): (r: Result<Country, DecodeError>)
    ensures r.Success? ==> Describes(j, r.value)
    ensures !j.JObject? ==> r.Failure?
  {
    var members :- ObjectMembers(j);
    var capital :- RequiredString(members, "capital");
    var code :- RequiredString(members, "code");
    var currencyValue :- RequiredValue(members, "currency");
    var currency :- Within(Key("currency"), DecodeCurrency(currencyValue));
    var flag :- RequiredString(members, "flag");
    var languageValue :- RequiredValue(members, "language");
    var language :- Within(Key("language"), DecodeLanguage(languageValue));
    var name :- RequiredString(members, "name");
    var region :- RequiredString(members, "region");
    Success(Country(capital, code, currency, flag, language, name, region))
  }

  /** Every object that stands for a country decodes to exactly that country. */
  lemma DecodeCountryComplete(j: Json, c: Country)
    requires Describes(j, c)
    ensures DecodeCountry(j) == Success(c)
  {
    DecodeCurrencyComplete(Lookup(j.members, "currency").value, c.currency);
    DecodeLanguageComplete(Lookup(j.members, "language").value, c.language);
  }

  /** Decoding fails exactly when the object stands for no country at all. */
  lemma DecodeCountryFailsIffNoCountry(j: Json)
    ensures DecodeCountry(j).Failure? <==> forall c :: !Describes(j, c)
  {
    if DecodeCountry(j).Failure? {
      forall c ensures !Describes(j, c) {
        if Describes(j, c) { DecodeCountryComplete(j, c); }
      }
    }
  }

  /** The synthesized `encode(to:)`: all seven members, the nested ones as objects. */
  function EncodeCountry(c: Country): (j: Json)
    ensures Describes(j, c)
  {
    var m := [
      ("capital", JString(c.capital)),
      ("code", JString(c.code)),
      ("currency", EncodeCurrency(c.currency)),
      ("flag", JString(c.flag)),
      ("language", EncodeLanguage(c.language)),
      ("name", JString(c.name)),
      ("region", JString(c.region))];
    LookupAt(m, 0); LookupAt(m, 1); LookupAt(m, 2); LookupAt(m, 3);
    LookupAt(m, 4); LookupAt(m, 5); LookupAt(m, 6);
    JObject(m)
  }

  /** Encoding then decoding gives back an equal country. */
  lemma CountryRoundTrip(c: Country)
    ensures DecodeCountry(EncodeCountry(c)) == Success(c)
  {
    DecodeCountryComplete(EncodeCountry(c), c);
  }

  /** A country object lacking any of the seven keys is refused. */
  lemma MissingMemberFails(members: seq<(string, Json)>, key: string)
    requires key in CountryKeys
    requires !HasMember(members, key)
    ensures DecodeCountry(JObject(members)).Failure?
  {
  }

  /** A string member that is missing, null or of another type (a number, say) makes the country be refused. */
  lemma NonStringMemberFails(members: seq<(string, Json)>, key: string)
    requires key in StringKeys
    requires Lookup(members, key).None? || !Lookup(members, key).value.JString?
    ensures DecodeCountry(JObject(members)).Failure?
  {
  }

  /** A `currency` or `language` member that is not an object (a string, say) makes the country be refused. */
  lemma NonObjectNestedMemberFails(members: seq<(string, Json)>, key: string)
    requires key in NestedKeys
    requires Lookup(members, key).None? || !Lookup(members, key).value.JObject?
    ensures DecodeCountry(JObject(members)).Failure?
  {
  }

  /** `{}` is refused, and the key reported is the first one declared, `capital`. */
  lemma EmptyObjectFails()
    ensures DecodeCountry(JObject([])) == Failure(KeyNotFound([], "capital"))
  {
  }

  /** A member with a key outside the model can be added anywhere without changing the decode. */
  lemma {:induction false} CountryIgnoresUnknownMember(pre: seq<(string, Json)>, extra: (string, Json), post: seq<(string, Json)>)
    requires extra.0 !in CountryKeys
    ensures DecodeCountry(JObject(pre + [extra] + post)) == DecodeCountry(JObject(pre + post))
  {
    forall key | key in CountryKeys
      ensures Lookup(pre + [extra] + post, key) == Lookup(pre + post, key)
    {
      LookupSkipsOtherKey(pre, extra, post, key);
    }
  }

  /** Empty strings are values like any other: a country whose every string is empty decodes unchanged. */
  lemma EmptyStringsAreKept()
    ensures var c := Country("", "", Currency("", "", None), "", Language(None, ""), "", "");
      DecodeCountry(EncodeCountry(c)) == Success(c)
  {
    CountryRoundTrip(Country("", "", Currency("", "", None), "", Language(None, ""), "", ""));
  }

  /**
   * Two countries are equal exactly when all seven members are. This holds
   * by construction: a datatype's equality is structural, which is what the
   * synthesized `Equatable` gives the struct.
   */
  lemma CountryEqualityIsMemberwise(a: Country, b: Country)
    ensures a == b <==>
      && a.capital == b.capital && a.code == b.code && a.currency == b.currency
      && a.flag == b.flag && a.language == b.language && a.name == b.name && a.region == b.region
  {
  }
}
