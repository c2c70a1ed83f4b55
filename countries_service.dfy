/**
 * `CountriesService.fetchCountries()` with the networking taken out: the
 * URL check, the one request it sends, and the guard chain in the
 * request's completion handler that turns the transport's answer and the
 * parser's result into exactly one outcome.
 */
module CountriesService {
  import opened Wrappers
  import opened Json
  import opened CountryModel
  import CountriesParsing

  /** The transport's error, kept as its domain and code; its `userInfo` is not modelled. */
  datatype NSError = NSError(domain: string, code: int)

  /**
   * `CountriesServiceError`. `TransportFailure` is the source's
   * `failure(NSError)`, renamed so as not to clash with `Result.Failure`.
   */
  datatype ServiceError =
    | TransportFailure(cause: NSError)
    | InvalidUrl(urlString: string)
    | InvalidData
    | DecodingFailure

  /** What the transport hands the completion handler: an optional body and an optional error. */
  datatype Response = Response(data: Option<Bytes>, error: Option<NSError>)

  /** What a parser returns: maybe a list, or an error of any kind `E`. */
  type ParserResult<E> = Result<Option<seq<Country>>, E>

  /**
   * The service's three fields: the endpoint, the session (here the
   * answer the transport gives for a URL) and the parser.
   */
  datatype Service<E> = Service(
    urlString: string,
    session: string -> Response,
    parser: Option<Bytes> -> ParserResult<E>)

  /** The endpoint a service is given when none is passed in. */
  const DefaultUrlString: string :=
    "https://gist.githubusercontent.com/peymano-wmt/32dcb892b06648910ddd40406e37fdab/raw/db25946fd77c5873b0303b858e861ce724e0dcd0/countries.json"

  /**
   * The data task's completion handler: a transport error first, then a
   * missing body, then a service that is gone (`self` is nil), and only
   * then the parser's result.
   */
  function CompleteRequest<E>(response: Response, ownerAlive: bool, parser: Option<Bytes> -> ParserResult<E>)
    : (r: Result<seq<Country>, ServiceError>)
    ensures response.error.Some? <==> r.Failure? && r.error.TransportFailure?
    ensures response.error.Some? ==> r.error.cause == response.error.value
    ensures r == Failure(InvalidData) <==> response.error.None? && response.data.None?
    ensures r == Failure(DecodingFailure) <==>
      response.error.None? && response.data.Some? && (!ownerAlive || parser(response.data).Failure?)
    ensures r.Success? <==>
      response.error.None? && response.data.Some? && ownerAlive && parser(response.data).Success?
    ensures r.Success? && parser(response.data).value.None? ==> r.value == []
    ensures r.Success? && parser(response.data).value.Some? ==> r.value == parser(response.data).value.value
    ensures !(r.Failure? && r.error.InvalidUrl?)
  {
    if response.error.Some? then Failure(TransportFailure(response.error.value))
    else if response.data.None? then Failure(InvalidData)
    else if !ownerAlive then Failure(DecodingFailure)
    else
      match parser(response.data)
      case Success(countries) => Success(if countries.Some? then countries.value else [])
      case Failure(_) => Failure(DecodingFailure)
  }

  /** One call of `fetchCountries()`: the URLs it sent a request to and its single outcome. */
  datatype FetchRun = FetchRun(requests: seq<string>, outcome: Result<seq<Country>, ServiceError>)

  /**
   * `fetchCountries()`. `isValidUrl` stands for `URL(string:)` succeeding;
   * `ownerAlive` says whether the service still exists when the response
   * arrives.
   */
  function FetchCountries<E>(service: Service<E>, isValidUrl: string -> bool, ownerAlive: bool): (run: FetchRun)
    ensures !isValidUrl(service.urlString) <==> run.outcome == Failure(InvalidUrl(service.urlString))
    ensures !isValidUrl(service.urlString) <==> run.requests == []
    ensures isValidUrl(service.urlString) ==> run.requests == [service.urlString]
    ensures isValidUrl(service.urlString) ==>
      run.outcome == CompleteRequest(service.session(service.urlString), ownerAlive, service.parser)
  {
    if !isValidUrl(service.urlString) then
      FetchRun([], Failure(InvalidUrl(service.urlString)))
    else
      FetchRun([service.urlString], CompleteRequest(service.session(service.urlString), ownerAlive, service.parser))
  }

  /** A service whose parser is `CountriesParser` reading bodies with `readJson`. */
  function WithParser(urlString: string, session: string -> Response, readJson: Bytes -> Option<Json>)
    : (s: Service<CountriesParsing.ParserError>)
    ensures s.urlString == urlString && s.session == session
    ensures forall data :: s.parser(data) == CountriesParsing.Parse(data, readJson)
  {
    Service(urlString, session, data => CountriesParsing.Parse(data, readJson))
  }

  /**
   * A service built with the initializer's defaults: the gist endpoint and
   * a fresh `CountriesParser`. `session` stands for `URLSession.shared` and
   * `readJson` for the parser's byte-level JSON reader.
   */
  function DefaultService(session: string -> Response, readJson: Bytes -> Option<Json>)
    : (s: Service<CountriesParsing.ParserError>)
    ensures s.urlString == DefaultUrlString && s.session == session
    ensures forall data :: s.parser(data) == CountriesParsing.Parse(data, readJson)
  {
    WithParser(DefaultUrlString, session, readJson)
  }

  /**
   * End to end: a body that reads as the encoding of a list of countries is
   * fetched as exactly that list, after one request.
   */
  lemma FetchReturnsServedCountries(
    urlString: string, session: string -> Response, readJson: Bytes -> Option<Json>,
    isValidUrl: string -> bool, cs: seq<Country>)
    requires isValidUrl(urlString)
    requires session(urlString).error.None? && session(urlString).data.Some?
    requires readJson(session(urlString).data.value) == Some(CountriesParsing.EncodeCountries(cs))
    ensures FetchCountries(WithParser(urlString, session, readJson), isValidUrl, true)
         == FetchRun([urlString], Success(cs))
  {
    CountriesParsing.ParseEncodedCountries(session(urlString).data.value, readJson, cs);
  }

  /**
   * End to end: a body that is not JSON, or JSON that is not a list of
   * countries, is fetched as a decoding failure.
   */
  lemma FetchRefusesMalformedBody(
    urlString: string, session: string -> Response, readJson: Bytes -> Option<Json>,
    isValidUrl: string -> bool)
    requires isValidUrl(urlString)
    requires session(urlString).error.None? && session(urlString).data.Some?
    requires var tree := readJson(session(urlString).data.value);
      tree.None? || CountriesParsing.DecodeCountries(tree.value).Failure?
    ensures FetchCountries(WithParser(urlString, session, readJson), isValidUrl, true).outcome
         == Failure(DecodingFailure)
  {
  }

  /**
   * A missing body is refused as invalid data before the parser is asked,
   * although the parser itself would accept a missing body as "no list".
   */
  lemma MissingBodyIsNotAnEmptyList(response: Response, ownerAlive: bool, readJson: Bytes -> Option<Json>)
    requires response.error.None? && response.data.None?
    ensures CountriesParsing.Parse(response.data, readJson) == Success(None)
    ensures CompleteRequest(response, ownerAlive, data => CountriesParsing.Parse(data, readJson)) == Failure(InvalidData)
  {
  }
}
