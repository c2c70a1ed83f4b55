# Countries: decoding and fetch outcome model

This project models in Dafny the core of an iOS app that downloads a JSON list
of countries. It covers two parts:

- **The schema.** `Country`, `Currency` and `Language` are `Codable`, `Equatable`
  Swift structs. Their synthesized decoders and encoders are modelled over a
  JSON tree. Every non-optional property is a required key that must hold a
  value of the right type. The two optional strings (`Currency.symbol`,
  `Language.code`) may be absent or `null`, and both mean "no value". Nested
  `currency` and `language` must be objects. Unknown keys are ignored. Encoding
  leaves a nil optional out, so encoding and then decoding gives back an equal
  value.
- **The fetch outcome.** `CountriesService.fetchCountries()` checks the URL,
  sends one request, and in the completion handler runs a guard chain:
  transport error, then missing body, then owner gone, then the parser's
  result. Each path ends in one value of `CountriesServiceError` or in a list.

Each model has a `Describes(j, v)` predicate that says which JSON trees stand
for which value. It is the reference definition. The decoders are proved sound
against it (their `ensures`) and complete (a lemma). The two together make
"decoding fails" equivalent to "no value is described". The encoders are proved
to produce a tree that describes their input, and the round trips follow from
that.

Modules, leaf first:
- `Wrappers`: `Option`, `Result`.
- `Json`: the JSON tree and member lookup.
- `KeyedDecoding`: how a synthesized `init(from:)` reads one member
  (`decode`, `decodeIfPresent`, nested containers) and how `encodeIfPresent`
  writes one.
- `CurrencyModel`, `LanguageModel`, `CountryModel`: the three structs.
- `CountriesParsing`: `[Country]` arrays and the parser.
- `CountriesService`: the error enum and `fetchCountries`.

The error cases are exactly those of `CountriesServiceError`:
`failure(NSError)`, `invalidUrl`, `invalidData` and `decodingFailure`. The
completion handler also reports `decodingFailure` when `self` is nil by the
time the response arrives.

## Model

| member | source | states |
|---|---|---|
| KeyedDecoding.RequiredString | CountriesChallenge/Models/Country.swift:9-15 | a required string member succeeds exactly when it is present and a string, and gives that string; absent is `keyNotFound`, `null` is `valueNotFound` |
| KeyedDecoding.OptionalString | CountriesChallenge/Models/Currency.swift:11 | an optional string member is nil exactly when absent or `null`, a value exactly when it is a string; any other value is an error |
| KeyedDecoding.RequiredValue | CountriesChallenge/Models/Country.swift:11 | a nested member (`currency` here, `language` at line 13) is found exactly when the key is present, else `keyNotFound` for that key |
| KeyedDecoding.EncodeIfPresent | CountriesChallenge/Models/Currency.swift:11 | what is written for an optional string reads back as that value, and nil writes no member at all (not a `null`); used for `symbol` and for `Language.code` |
| KeyedDecoding.ObjectMembers | CountriesChallengeTests/CountriesChallengeTests.swift:585-599 | a struct is read only from an object; `null` and scalars are refused |
| CurrencyModel.DecodeCurrency | CountriesChallenge/Models/Currency.swift:8-12 | a decoded currency is one the object describes; a non-object never decodes |
| CurrencyModel.DecodeCurrencyComplete | CountriesChallenge/Models/Currency.swift:9-11 | every object that describes a currency decodes to exactly it; extra members do not matter |
| CurrencyModel.DecodeCurrencyFailsIffNoCurrency | CountriesChallenge/Models/Currency.swift:9-10 | decoding fails if and only if the object describes no currency |
| CurrencyModel.EncodeCurrency | CountriesChallenge/Models/Currency.swift:8 | the encoding describes the currency, and it has a `symbol` member exactly when the symbol is not nil |
| CurrencyModel.CurrencyRoundTrip | CountriesChallengeTests/CountriesParserTest.swift:89-101 | decode after encode gives back the same currency, a nil symbol included |
| CurrencyModel.CurrencyIgnoresUnknownMember | CountriesChallenge/Models/Currency.swift:8-12 | inserting a member with an unknown key anywhere leaves the decode unchanged |
| CurrencyModel.SymbolAbsentIsNil | CountriesChallengeTests/CountriesChallengeTests.swift:441-445 | a currency without `symbol` decodes with a nil symbol |
| CurrencyModel.SymbolNullIsNil | CountriesChallengeTests/CountriesChallengeTests.swift:568-583 | `"symbol": null` decodes to a nil symbol |
| CurrencyModel.SymbolEmptyIsKept | CountriesChallengeTests/CountriesChallengeTests.swift:495-510 | `"symbol": ""` decodes to the empty string, not to nil |
| CurrencyModel.CurrencyEqualityIsMemberwise | CountriesChallenge/Models/Currency.swift:8 | two currencies are equal exactly when code, name and symbol are |
| LanguageModel.DecodeLanguage | CountriesChallenge/Models/Language.swift:8-11 | a decoded language is one the object describes; a non-object never decodes |
| LanguageModel.DecodeLanguageComplete | CountriesChallenge/Models/Language.swift:9-10 | every object that describes a language decodes to exactly it |
| LanguageModel.DecodeLanguageFailsIffNoLanguage | CountriesChallenge/Models/Language.swift:10 | decoding fails if and only if the object describes no language |
| LanguageModel.EncodeLanguage | CountriesChallenge/Models/Language.swift:8 | the encoding describes the language, and it has a `code` member exactly when the code is not nil |
| LanguageModel.LanguageRoundTrip | CountriesChallengeTests/CountriesParserTest.swift:103-116 | decode after encode gives back the same language: a nil code stays nil and the name is kept |
| LanguageModel.LanguageIgnoresUnknownMember | CountriesChallenge/Models/Language.swift:8-11 | inserting a member with an unknown key anywhere leaves the decode unchanged |
| LanguageModel.CodeAbsentIsNil | CountriesChallengeTests/CountriesChallengeTests.swift:705-720 | a language without `code` decodes with a nil code |
| LanguageModel.CodeNullIsNil | CountriesChallengeTests/CountriesChallengeTests.swift:512-527 | `"code": null` decodes to a nil code |
| LanguageModel.NameMissingFails | CountriesChallenge/Models/Language.swift:10 | a language object without `name` is refused |
| LanguageModel.LanguageEqualityIsMemberwise | CountriesChallenge/Models/Language.swift:8 | two languages are equal exactly when code and name are |
| CountryModel.DecodeCountry | CountriesChallenge/Models/Country.swift:8-16 | a decoded country is one the object describes: seven required members, nested currency and language objects; a non-object never decodes |
| CountryModel.DecodeCountryComplete | CountriesChallenge/Models/Country.swift:9-15 | every object that describes a country decodes to exactly it, empty strings included |
| CountryModel.DecodeCountryFailsIffNoCountry | CountriesChallenge/Models/Country.swift:9-15 | decoding fails if and only if the object describes no country |
| CountryModel.EncodeCountry | CountriesChallenge/Models/Country.swift:8 | the encoding describes the country |
| CountryModel.CountryRoundTrip | CountriesChallengeTests/CountriesChallengeTests.swift:774-792 | decode after encode gives back an equal country |
| CountryModel.MissingMemberFails | CountriesChallengeTests/CountriesChallengeTests.swift:464-477 | an object lacking any of the seven keys (`capital`, `flag`, ...) is refused |
| CountryModel.NonStringMemberFails | CountriesChallengeTests/CountriesChallengeTests.swift:479-493 | a string member that is missing, `null` or a number is refused |
| CountryModel.NonObjectNestedMemberFails | CountriesChallengeTests/CountriesChallengeTests.swift:618-632 | a `currency` or `language` member that is not an object is refused |
| CountryModel.EmptyObjectFails | CountriesChallengeTests/CountriesChallengeTests.swift:563-566 | `{}` is refused, reporting the first declared key `capital` as not found |
| CountryModel.CountryIgnoresUnknownMember | CountriesChallengeTests/CountriesChallengeTests.swift:544-561 | inserting a member with an unknown key (`population`, `timezone`) anywhere leaves the decode unchanged |
| CountryModel.EmptyStringsAreKept | CountriesChallengeTests/CountriesTestHelper.swift:104-114 | a country whose every string is empty decodes unchanged |
| CountryModel.CountryEqualityIsMemberwise | CountriesChallenge/Models/Country.swift:8 | two countries are equal exactly when all seven members are |
| CountriesParsing.DecodeCountries | CountriesChallengeTests/CountriesParserTest.swift:51-63 | a decoded list is one the array describes, element by element and in order; a non-array never decodes |
| CountriesParsing.DecodeElements | CountriesChallengeTests/CountriesParserTest.swift:131-147 | decoding the elements from an index on gives one country per element, each described by its element |
| CountriesParsing.DecodeElementsComplete | CountriesChallengeTests/CountriesParserTest.swift:131-147 | elements that describe a list decode to exactly that list |
| CountriesParsing.DecodeCountriesComplete | CountriesChallengeTests/CountriesParserTest.swift:176-188 | an array that describes a list decodes to exactly it: same count, same order, duplicates kept |
| CountriesParsing.DecodeCountriesFailsIffSomeElementFails | CountriesChallengeTests/CountriesParserTest.swift:163-174 | an array is refused exactly when one of its elements is |
| CountriesParsing.EncodeCountries | CountriesChallengeTests/CountriesParserTest.swift:27-29 | the encoded array describes the list |
| CountriesParsing.CountriesRoundTrip | CountriesChallengeTests/CountriesParserTest.swift:36-49 | decode after encode gives back the same list |
| CountriesParsing.EmptyArrayDecodesToEmptyList | CountriesChallengeTests/CountriesParserTest.swift:118-129 | `[]` decodes to the empty list |
| CountriesParsing.EmptyObjectElementFails | CountriesChallengeTests/CountriesParserTest.swift:190-201 | `[{}]` is refused, at element 0, key `capital` |
| CountriesParsing.DuplicatesKept | CountriesChallengeTests/CountriesParserTest.swift:176-188 | an encoded `[A, A]` decodes to `[A, A]` |
| CountriesParsing.NullNameFails | CountriesChallengeTests/CountriesParserTest.swift:12 | an element with `"name": null` is refused, however good its other members are |
| CountriesParsing.Parse | CountriesChallengeTests/CountriesParserTest.swift:65-87 | no body gives success with no list; a body that is not JSON or not a list of countries gives `decodingFailure`; otherwise the described list |
| CountriesParsing.ParseEncodedCountries | CountriesChallengeTests/CountriesParserTest.swift:36-49 | a body that reads as an encoded list parses to that list |
| CountriesService.CompleteRequest | CountriesChallenge/RemoteServices/CountriesService.swift:34-50 | a transport error, and only one, gives `failure` with its cause, even when a body came; no error and no body gives `invalidData`; `decodingFailure` exactly when the body is there and the owner is gone or the parser fails; success exactly when the parser succeeds, with its list unchanged or `[]` for nil; never `invalidUrl` |
| CountriesService.FetchCountries | CountriesChallenge/RemoteServices/CountriesService.swift:28-53 | an invalid URL gives `invalidUrl` with exactly the configured string and sends no request; a valid one sends exactly one request to it and ends as the completion handler decides |
| CountriesService.WithParser | CountriesChallenge/RemoteServices/CountriesService.swift:14-26 | a service built from an endpoint, a session and the countries parser keeps all three |
| CountriesService.DefaultService | CountriesChallenge/RemoteServices/CountriesService.swift:20-22 | a service built with the initializer's defaults has the gist endpoint, the given session and the countries parser |
| CountriesService.FetchReturnsServedCountries | CountriesChallengeTests/CountriesServiceTest.swift:56-64 | a served body that reads as an encoded list is fetched as exactly that list, after one request |
| CountriesService.FetchRefusesMalformedBody | CountriesChallengeTests/CountriesServiceTest.swift:118-131 | a served body that is not JSON, or not a list of countries, is fetched as `decodingFailure` |
| CountriesService.MissingBodyIsNotAnEmptyList | CountriesChallengeTests/CountriesServiceTest.swift:87-99 | no body is `invalidData` from the service, although the parser alone would give "no list" |

Notes on the model:
- In the model, `failure(NSError)` is named `TransportFailure`. This avoids a
  clash with `Result.Failure`.
- `NSError` is kept as its domain and code, compared by equality.
  "The cause is kept" therefore means its domain and code are kept.
- `fetchCountries` is a function. So each call ends in exactly one outcome by
  construction, and `FetchRun.requests` records the requests it sent.

## Left out

- Networking and async plumbing are not modelled: `URLSession.dataTask`, the
  continuation, `task.resume()` and the `[weak self]` capture. The transport's
  answer is the session parameter, a function from URL to `(data?, error?)`.
  Whether the service is still alive is the `ownerAlive` parameter.
- URL validity, that is `URL(string:)` succeeding, is Foundation behaviour. It
  is the uninterpreted parameter `isValidUrl`. No particular string (such as
  `"invalid-url"`) is claimed to be rejected.
- Reading and writing JSON bytes (RFC 8259) is not modelled. Reading is the
  parameter `readJson`; if it fails, the result is a decoding failure. Numbers
  are integers.
- Objects with a repeated key are out of scope. `Json.Lookup` takes the first
  occurrence.
- Strings are compared as sequences of characters. Unicode normalisation is
  not modelled.
- `CountriesParser` is not part of this model. `CountriesParsing.Parse`
  assumes it decodes `[Country]` as a default `JSONDecoder` does and maps
  every error to `decodingFailure`. Its tests pin down the outcomes for no
  body, an empty list, valid lists, non-JSON bytes, a `null` name and `[{}]`.
  They do not pin down the assumption itself, for example what a body of
  `null` gives; here it is a decoding failure.
- NSError: its `userInfo` is dropped. Two transport errors that differ only
  in `userInfo` are equal in the model, although Swift tells them apart.
- `CountriesViewModel` and its observable state are not part of this model.
  Combine subjects and dispatch queues are concurrency plumbing, and the tests
  about the view model contradict each other.
- `CountriesServiceRequestDelegate` is declared but never used, so it is not
  modelled.
- The UI, view controllers and test doubles are not modelled.
- `JSONEncoder` writes object members in no fixed order. The encoders here use
  declaration order, and no property depends on that order.
