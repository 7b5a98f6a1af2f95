/**
 * The ingress hook (`onClientRequest`): build the context, ask the flag
 * evaluator for `enable-ads`, and answer with the rendered page, or with a
 * fixed error page when the evaluation fails.
 */
module Handler {
  import opened Headers
  import opened Strings
  import opened Context
  import opened Page

  /** How the external evaluator's call settles: a flag value, or a rejection. */
  datatype EvalOutcome = Success(showAds: bool) | Failure(error: string)

  /** The evaluator, seen from the handler: flag key, context and default value in, outcome out. */
  type Evaluator = (string, MultiContext, bool) -> EvalOutcome

  /** What `respondWith(status, headers, body)` sends to the client. */
  datatype Response = Response(status: int, headers: Headers, body: string)

  const FlagKey: string := "enable-ads"
  const FlagDefault: bool := false
  const HtmlHeaders: Headers := map["Content-Type" := ["text/html"]]

  /** The fallback page (the text of its template, as fragments): its heading... */
  const ErrorHeading: seq<string> := [
    "\n",
    "      <!DOCTYPE html>\n",
    "      <html>\n",
    "      <body>\n",
    "        <h1>",
    "Service Unavailable",
    "</h1>\n"
  ]

  /** ...and the message below it. */
  const ErrorMessage: seq<string> := [
    "        <p>Please try ",
    "again later.</p>\n",
    "      </body>\n",
    "      </html>\n",
    "    "
  ]

  const ErrorFragments: seq<string> := ErrorHeading + ErrorMessage

  const ErrorPage: string := Concat(ErrorFragments)

  /**
   * `onClientRequest`. The evaluator is called once, with the flag key
   * `enable-ads`, the request's context and the default `false`. When it
   * yields a value the client gets status 200 and the page rendered for it;
   * when it rejects, status 500 and the fallback page, whatever the error.
   * Both answers are HTML.
   */
  function OnClientRequest(request: IngressRequest, evaluate: Evaluator): (r: Response)
    ensures r.headers == HtmlHeaders
    ensures r.status == 200 || r.status == 500
    ensures r.status == 200 <==> evaluate(FlagKey, CreateLDContext(request), FlagDefault).Success?
    ensures r.status == 200 ==> r.body == CreateResponse(evaluate(FlagKey, CreateLDContext(request), FlagDefault).showAds)
    ensures r.status == 500 ==> r.body == ErrorPage
  {
    var context := CreateLDContext(request);
    match evaluate(FlagKey, context, FlagDefault)
    case Success(showAds) => Response(200, HtmlHeaders, CreateResponse(showAds))
    case Failure(_) => Response(500, HtmlHeaders, ErrorPage)
  }

  /** The handler depends on the evaluator only through its answer for this request's context. */
  lemma OnlyTheFlagMatters(request: IngressRequest, e1: Evaluator, e2: Evaluator)
    ensures e1(FlagKey, CreateLDContext(request), FlagDefault) == e2(FlagKey, CreateLDContext(request), FlagDefault) ==>
      OnClientRequest(request, e1) == OnClientRequest(request, e2)
  {
  }

  /** Every rejection yields the same response: the error never reaches the client. */
  lemma FailureHidesError(request: IngressRequest, e1: Evaluator, e2: Evaluator)
    ensures e1(FlagKey, CreateLDContext(request), FlagDefault).Failure? ==>
      OnClientRequest(request, e1) == Response(500, HtmlHeaders, ErrorPage)
    ensures (e1(FlagKey, CreateLDContext(request), FlagDefault).Failure? &&
             e2(FlagKey, CreateLDContext(request), FlagDefault).Failure?) ==>
      OnClientRequest(request, e1) == OnClientRequest(request, e2)
  {
  }

  lemma ErrorFragmentsAvoidAd()
    ensures forall c | c in ErrorFragments :: AvoidsPair(c, 'A', 'd')
  {
    assert AvoidsPair(ErrorHeading[0], 'A', 'd');
    assert AvoidsPair(ErrorHeading[1], 'A', 'd');
    assert AvoidsPair(ErrorHeading[2], 'A', 'd');
    assert AvoidsPair(ErrorHeading[3], 'A', 'd');
    assert AvoidsPair(ErrorHeading[4], 'A', 'd');
    assert AvoidsPair(ErrorHeading[5], 'A', 'd');
    assert AvoidsPair(ErrorHeading[6], 'A', 'd');
    assert AvoidsPair(ErrorMessage[0], 'A', 'd');
    assert AvoidsPair(ErrorMessage[1], 'A', 'd');
    assert AvoidsPair(ErrorMessage[2], 'A', 'd');
    assert AvoidsPair(ErrorMessage[3], 'A', 'd');
    assert AvoidsPair(ErrorMessage[4], 'A', 'd');
  }

  lemma ErrorFragmentsAvoidHe()
    ensures forall c | c in ErrorFragments :: AvoidsPair(c, 'H', 'e')
  {
    assert AvoidsPair(ErrorHeading[0], 'H', 'e');
    assert AvoidsPair(ErrorHeading[1], 'H', 'e');
    assert AvoidsPair(ErrorHeading[2], 'H', 'e');
    assert AvoidsPair(ErrorHeading[3], 'H', 'e');
    assert AvoidsPair(ErrorHeading[4], 'H', 'e');
    assert AvoidsPair(ErrorHeading[5], 'H', 'e');
    assert AvoidsPair(ErrorHeading[6], 'H', 'e');
    assert AvoidsPair(ErrorMessage[0], 'H', 'e');
    assert AvoidsPair(ErrorMessage[1], 'H', 'e');
    assert AvoidsPair(ErrorMessage[2], 'H', 'e');
    assert AvoidsPair(ErrorMessage[3], 'H', 'e');
    assert AvoidsPair(ErrorMessage[4], 'H', 'e');
  }

  /** The fallback page shows no advertisement. */
  lemma ErrorPageHasNoAd()
    ensures !Contains(ErrorPage, AdLabel)
  {
    ErrorFragmentsAvoidAd();
    AvoidsPairConcat(ErrorFragments, 'A', 'd');
    AvoidsPairExcludes(ErrorPage, AdLabel, 0);
  }

  /** The fallback page does not greet the visitor. */
  lemma ErrorPageHasNoGreeting()
    ensures !Contains(ErrorPage, Greeting)
  {
    ErrorFragmentsAvoidHe();
    AvoidsPairConcat(ErrorFragments, 'H', 'e');
    AvoidsPairExcludes(ErrorPage, Greeting, 0);
  }

  /** The fallback page tells the visitor the service is unavailable. */
  lemma ErrorPageSaysUnavailable()
    ensures Contains(ErrorPage, "Service Unavailable")
  {
    ContainsPiece(ErrorHeading, 5);
    ConcatAppend(ErrorHeading, ErrorMessage);
    ContainsAppend(Concat(ErrorHeading), Concat(ErrorMessage), "Service Unavailable");
  }

  /** The client sees the advertisement exactly when the evaluator settles on `true`. */
  lemma AdsShownIffFlagOn(request: IngressRequest, evaluate: Evaluator)
    ensures Contains(OnClientRequest(request, evaluate).body, AdLabel) <==>
      evaluate(FlagKey, CreateLDContext(request), FlagDefault) == Success(true)
  {
    match evaluate(FlagKey, CreateLDContext(request), FlagDefault)
    case Success(showAds) => AdvertisementIffShowAds(showAds);
    case Failure(_) => ErrorPageHasNoAd();
  }

  /** The client is greeted exactly when the evaluator settles on a value. */
  lemma GreetingIffEvaluated(request: IngressRequest, evaluate: Evaluator)
    ensures Contains(OnClientRequest(request, evaluate).body, Greeting) <==>
      evaluate(FlagKey, CreateLDContext(request), FlagDefault).Success?
  {
    match evaluate(FlagKey, CreateLDContext(request), FlagDefault)
    case Success(showAds) => GreetingAlwaysShown(showAds);
    case Failure(_) => ErrorPageHasNoGreeting();
  }
}
