/**
 * Decoding a whole payload: a JSON array of countries, and the parser that
 * turns an optional response body into an optional list of countries.
 * The parser's own source is not part of this model; its behaviour here
 * is the one its tests pin down.
 */
module CountriesParsing {
  import opened Wrappers
  import opened Json
  import opened KeyedDecoding
  import opened CurrencyModel
  import opened LanguageModel
  import opened CountryModel

  /** `j` is a JSON array whose elements stand, one by one and in order, for `cs`. */
  predicate DescribesAll(j: Json, cs: seq<Country>) {
    && j.JArray?
    && |j.items| == |cs|
    && forall i :: 0 <= i < |cs| ==> CountryModel.Describes(j.items[i], cs[i])
  }

  /** `decode([Country].self, from:)`: the value must be an array of countries. */
  function DecodeCountries(j: Json): (r: Result<seq<Country>, DecodeError>)
    ensures r.Success? ==> DescribesAll(j, r.value)
    ensures !j.JArray? ==> r.Failure?
  {
    match j
    case JArray(items) => DecodeElements(items, 0)
    case JNull => Failure(ValueNotFound([]))
    case _ => Failure(TypeMismatch([]))
  }

  /**
   * The array's elements from index `from` on, decoded in order; the first
   * element that fails is reported with its index.
   */
  function DecodeElements(items: seq<Json>, from: nat): (r: Result<seq<Country>, DecodeError>)
    requires from <= |items|
    ensures r.Success? ==> |r.value| == |items| - from
    ensures r.Success? ==> forall k :: 0 <= k < |r.value| ==> CountryModel.Describes(items[from + k], r.value[k])
    decreases |items| - from
  {
    if from == |items| then Success([])
    else
      var first :- Within(Index(from), DecodeCountry(items[from]));
      var rest :- DecodeElements(items, from + 1);
      Success([first] + rest)
  }

  /** Elements that stand for `cs` decode to exactly `cs`. */
  lemma {:induction false} DecodeElementsComplete(items: seq<Json>, from: nat, cs: seq<Country>)
    requires from <= |items| && |cs| == |items| - from
    requires forall k :: 0 <= k < |cs| ==> CountryModel.Describes(items[from + k], cs[k])
    ensures DecodeElements(items, from) == Success(cs)
    decreases |items| - from
  {
    if from < |items| {
      DecodeCountryComplete(items[from], cs[0]);
      DecodeElementsComplete(items, from + 1, cs[1..]);
      assert [cs[0]] + cs[1..] == cs;
    }
  }

  /** Every array that stands for a list of countries decodes to that list: same length, same order, duplicates kept. */
  lemma DecodeCountriesComplete(j: Json, cs: seq<Country>)
    requires DescribesAll(j, cs)
    ensures DecodeCountries(j) == Success(cs)
  {
    DecodeElementsComplete(j.items, 0, cs);
  }

  /** An array decodes exactly when each of its elements does; one bad element refuses the whole payload. */
  lemma DecodeCountriesFailsIffSomeElementFails(items: seq<Json>)
    ensures DecodeCountries(JArray(items)).Failure? <==>
      exists i :: 0 <= i < |items| && DecodeCountry(items[i]).Failure?
  {
    if exists i :: 0 <= i < |items| && DecodeCountry(items[i]).Failure? {
      var i :| 0 <= i < |items| && DecodeCountry(items[i]).Failure?;
      DecodeCountryFailsIffNoCountry(items[i]);
    } else {
      var cs := seq(|items|, i requires 0 <= i < |items| => DecodeCountry(items[i]).value);
      DecodeCountriesComplete(JArray(items), cs);
    }
  }

  /** `JSONEncoder` on `[Country]`: an array of the encoded countries, in order. */
  function EncodeCountries(cs: seq<Country>): (j: Json)
    ensures DescribesAll(j, cs)
  {
    JArray(seq(|cs|, i requires 0 <= i < |cs| => EncodeCountry(cs[i])))
  }

  /** Encoding a list of countries and decoding it gives back the same list. */
  lemma CountriesRoundTrip(cs: seq<Country>)
    ensures DecodeCountries(EncodeCountries(cs)) == Success(cs)
  {
    DecodeCountriesComplete(EncodeCountries(cs), cs);
  }

  /** `[]` decodes to the empty list. */
  lemma EmptyArrayDecodesToEmptyList()
    ensures DecodeCountries(JArray([])) == Success([])
  {
  }

  /** `[{}]` is refused: the first element lacks its first key. */
  lemma EmptyObjectElementFails()
    ensures DecodeCountries(JArray([JObject([])])) == Failure(KeyNotFound([Index(0)], "capital"))
  {
    EmptyObjectFails();
    var noPath: seq<PathStep> := [];
    assert [Index(0)] + noPath == [Index(0)];
    assert Under(Index(0), KeyNotFound(noPath, "capital")) == KeyNotFound([Index(0)], "capital");
    assert Within(Index(0), DecodeCountry(JObject([]))) == Failure(KeyNotFound([Index(0)], "capital"));
  }

  /** Two equal countries decode to two equal entries. */
  lemma DuplicatesKept(c: Country)
    ensures DecodeCountries(EncodeCountries([c, c])) == Success([c, c])
  {
    CountriesRoundTrip([c, c]);
  }

  /**
   * An element whose `name` is null is refused even when every other member
   * is well formed, as in `[{ "name": null, "capital": "N/A", ... }]`.
   */
  lemma NullNameFails(capital: string, code: string, currency: Currency, flag: string, language: Language, region: string)
    ensures DecodeCountries(JArray([JObject([
      ("name", JNull),
      ("capital", JString(capital)),
      ("code", JString(code)),
      ("currency", EncodeCurrency(currency)),
      ("flag", JString(flag)),
      ("language", EncodeLanguage(language)),
      ("region", JString(region))])])).Failure?
  {
    var m := [
      ("name", JNull),
      ("capital", JString(capital)),
      ("code", JString(code)),
      ("currency", EncodeCurrency(currency)),
      ("flag", JString(flag)),
      ("language", EncodeLanguage(language)),
      ("region", JString(region))];
    LookupAt(m, 0);
    NonStringMemberFails(m, "name");
    DecodeCountriesFailsIffSomeElementFails([JObject(m)]);
  }

  /** How the parser can fail: every failure is reported as this one value. */
  datatype ParserError = DecodingFailure

  /**
   * `CountriesParser.parser(_:)`: no body is success with no list; a body
   * is read as JSON by `readJson` (the byte-level reader) and decoded as a
   * list of countries, any fault on the way being a decoding failure.
   */
  function Parse(data: Option<Bytes>, readJson: Bytes -> Option<Json>): (r: Result<Option<seq<Country>>, ParserError>)
    ensures data.None? <==> r == Success(None)
    ensures r.Failure? <==> data.Some? && (readJson(data.value).None? || DecodeCountries(readJson(data.value).value).Failure?)
    ensures r.Success? && r.value.Some? ==> data.Some? && readJson(data.value).Some? && DescribesAll(readJson(data.value).value, r.value.value)
  {
    match data
    case None => Success(None)
    case Some(bytes) =>
      match readJson(bytes)
      case None => Failure(DecodingFailure)
      case Some(j) =>
        match DecodeCountries(j)
        case Success(countries) => Success(Some(countries))
        case Failure(_) => Failure(DecodingFailure)
  }

  /** A body that reads as the encoding of a list parses to exactly that list. */
  lemma ParseEncodedCountries(bytes: Bytes, readJson: Bytes -> Option<Json>, cs: seq<Country>)
    requires readJson(bytes) == Some(EncodeCountries(cs))
    ensures Parse(Some(bytes), readJson) == Success(Some(cs))
  {
    CountriesRoundTrip(cs);
  }
}
