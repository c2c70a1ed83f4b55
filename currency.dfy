/** The `Currency` model: required `code` and `name`, optional `symbol`. */
module CurrencyModel {
  import opened Wrappers
  import opened Json
  import opened KeyedDecoding

  /** A currency; equality is structural, as with a synthesized `Equatable`. */
  datatype Currency = Currency(code: string, name: string, symbol: Option<string>)

  /** The keys a currency object is read from. */
  const CurrencyKeys: set<string> := {"code", "name", "symbol"}

  /** `j` is a JSON object that stands for the currency `c`; other members are ignored. */
  predicate Describes(j: Json, c: Currency) {
    && j.JObject?
    && HoldsString(j.members, "code", c.code)
    && HoldsString(j.members, "name", c.name)
    && HoldsOptionalString(j.members, "symbol", c.symbol)
  }

  /** The synthesized `init(from:)`: the members in declaration order, the first fault reported. */
  function DecodeCurrency(j: Json): (r: Result<Currency, DecodeError>)
    ensures r.Success? ==> Describes(j, r.value)
    ensures !j.JObject? ==> r.Failure?
  {
    var members :- ObjectMembers(j);
    var code :- RequiredString(members, "code");
    var name :- RequiredString(members, "name");
    var symbol :- OptionalString(members, "symbol");
    Success(Currency(code, name, symbol))
  }

  /** Every object that stands for a currency decodes to exactly that currency. */
  lemma DecodeCurrencyComplete(j: Json, c: Currency)
    requires Describes(j, c)
    ensures DecodeCurrency(j) == Success(c)
  {
  }

  /** Decoding fails exactly when the object stands for no currency at all. */
  lemma DecodeCurrencyFailsIffNoCurrency(j: Json)
    ensures DecodeCurrency(j).Failure? <==> forall c :: !Describes(j, c)
  {
    if DecodeCurrency(j).Failure? {
      forall c ensures !Describes(j, c) {
        if Describes(j, c) { DecodeCurrencyComplete(j, c); }
      }
    }
  }

  /** The synthesized `encode(to:)`: `code`, `name`, and `symbol` only when it has a value. */
  function EncodeCurrency(c: Currency): (j: Json)
    ensures Describes(j, c)
    ensures j.JObject? && (c.symbol.None? <==> !HasMember(j.members, "symbol"))
  {
    var members := [("code", JString(c.code)), ("name", JString(c.name))] + EncodeIfPresent("symbol", c.symbol);
    LookupAt(members, 0);
    LookupAt(members, 1);
    if c.symbol.Some? then LookupAt(members, 2); JObject(members)
    else LookupMissing(members, "symbol"); JObject(members)
  }

  /** Encoding then decoding gives back an equal currency, a nil symbol included. */
  lemma CurrencyRoundTrip(c: Currency)
    ensures DecodeCurrency(EncodeCurrency(c)) == Success(c)
  {
    DecodeCurrencyComplete(EncodeCurrency(c), c);
  }

  /** A member with a key outside the model can be added anywhere without changing the decode. */
  lemma {:induction false} CurrencyIgnoresUnknownMember(pre: seq<(string, Json)>, extra: (string, Json), post: seq<(string, Json)>)
    requires extra.0 !in CurrencyKeys
    ensures DecodeCurrency(JObject(pre + [extra] + post)) == DecodeCurrency(JObject(pre + post))
  {
    forall key | key in CurrencyKeys
      ensures Lookup(pre + [extra] + post, key) == Lookup(pre + post, key)
    {
      LookupSkipsOtherKey(pre, extra, post, key);
    }
  }

  /** A currency object without a `symbol` member decodes with a nil symbol. */
  lemma SymbolAbsentIsNil(code: string, name: string)
    ensures DecodeCurrency(JObject([("code", JString(code)), ("name", JString(name))]))
         == Success(Currency(code, name, None))
  {
    var m := [("code", JString(code)), ("name", JString(name))];
    LookupAt(m, 0);
    LookupAt(m, 1);
    LookupMissing(m, "symbol");
    DecodeCurrencyComplete(JObject(m), Currency(code, name, None));
  }

  /** `"symbol": null` decodes to a nil symbol. */
  lemma SymbolNullIsNil(code: string, name: string)
    ensures DecodeCurrency(JObject([("code", JString(code)), ("name", JString(name)), ("symbol", JNull)]))
         == Success(Currency(code, name, None))
  {
    var m := [("code", JString(code)), ("name", JString(name)), ("symbol", JNull)];
    LookupAt(m, 0);
    LookupAt(m, 1);
    LookupAt(m, 2);
    DecodeCurrencyComplete(JObject(m), Currency(code, name, None));
  }

  /** `"symbol": ""` decodes to the empty string, which is not nil. */
  lemma SymbolEmptyIsKept(code: string, name: string)
    ensures DecodeCurrency(JObject([("code", JString(code)), ("name", JString(name)), ("symbol", JString(""))]))
         == Success(Currency(code, name, Some("")))
  {
    var m := [("code", JString(code)), ("name", JString(name)), ("symbol", JString(""))];
    LookupAt(m, 0);
    LookupAt(m, 1);
    LookupAt(m, 2);
    DecodeCurrencyComplete(JObject(m), Currency(code, name, Some("")));
  }


  /**
   * Two currencies are equal exactly when code, name and symbol are. This
   * holds by construction: a datatype's equality is structural, which is
   * what the synthesized `Equatable` gives the struct.
   */
  lemma CurrencyEqualityIsMemberwise(a: Currency, b: Currency)
    ensures a == b <==> a.code == b.code && a.name == b.name && a.symbol == b.symbol
  {
  }
}
