/** The `/analyze` endpoint's decision chain: validate the request, consult
    robots.txt, crawl, score, and map each outcome to a status code. The
    run also records, in order, every external call it makes, so that the
    short-circuit order can be stated. */
module Pipeline {
  import opened Wrappers
  import opened Text
  import opened Scraper
  import opened Sentiment

  const DefaultNumPages: int := 5

  /** What Python's `int()` does with the `num_pages` field: an integer, a
      ValueError (a non-numeric string), or another exception (a TypeError
      for `null`, a list or an object). */
  datatype Conversion = Converted(value: int) | NotAnInteger | ConversionError(message: string)

  /** The decoded JSON body: `base_url` (absent or `null` is `None`) and the
      conversion of `num_pages` (`None` when the key is absent). */
  datatype Request = Request(baseUrl: Option<string>, numPages: Option<Conversion>)

  datatype Reply = Sentiments(results: seq<SentimentResult>) | Error(status: int, message: string)

  function StatusCode(reply: Reply): int {
    match reply
    case Sentiments(_) => 200
    case Error(status, _) => status
  }

  /** An external call, in the order the run makes it. */
  datatype Effect =
    | RobotsQuery(policyUrl: string, target: string)
    | PageFetch(url: string)
    | Scoring(review: string)

  datatype Run = Run(reply: Reply, effects: seq<Effect>)

  /** `int(data.get('num_pages', 5))`: the default when the key is absent. */
  function NumPagesOf(req: Request): (c: Conversion)
    ensures req.numPages.None? ==> c == Converted(5)
    ensures req.numPages.Some? ==> c == req.numPages.value
  {
    match req.numPages
    case None => Converted(DefaultNumPages)
    case Some(c) => c
  }

  /** `not base_url`: absent, null or the empty string. */
  predicate HasBaseUrl(req: Request): (given: bool)
    ensures !given <==> req.baseUrl == None || req.baseUrl == Some("")
  {
    req.baseUrl.Some? && req.baseUrl.value != ""
  }

  function Fetches(urls: seq<string>): (es: seq<Effect>)
    ensures |es| == |urls|
    ensures forall i :: 0 <= i < |urls| ==> es[i] == PageFetch(urls[i])
  {
    if urls == [] then [] else Fetches(urls[..|urls| - 1]) + [PageFetch(urls[|urls| - 1])]
  }

  function Scorings(reviews: seq<string>): (es: seq<Effect>)
    ensures |es| == |reviews|
    ensures forall i :: 0 <= i < |reviews| ==> es[i] == Scoring(reviews[i])
  {
    if reviews == [] then [] else Scorings(reviews[..|reviews| - 1]) + [Scoring(reviews[|reviews| - 1])]
  }

  /** `analyze`: each check short-circuits the ones after it. */
  function Analyze(req: Request, robots: RobotsOracle, http: Transport, scorer: Scorer): (run: Run)
    ensures StatusCode(run.reply) in {200, 400, 403, 404, 500}
    ensures run.reply.Sentiments? ==> |run.reply.results| > 0
  {
    match NumPagesOf(req)
    case NotAnInteger => Run(Error(400, "num_pages must be an integer"), [])
    case ConversionError(message) => Run(Error(500, message), [])
    case Converted(n) =>
      if !HasBaseUrl(req) then Run(Error(400, "Base URL is required"), [])
      else
        var url := req.baseUrl.value;
        var gate := [RobotsQuery(RobotsUrl(url), url)];
        if !IsScrapingAllowed(url, robots) then Run(Error(403, "Scraping not allowed by robots.txt"), gate)
        else
          var rest := CollectAndScore(url, Pages(n), http, scorer);
          Run(rest.reply, gate + rest.effects)
  }

  /** The part of `analyze` after robots.txt allowed the crawl: collect the
      reviews, answer 404 when there are none, score them otherwise. */
  function CollectAndScore(url: string, pages: nat, http: Transport, scorer: Scorer): (run: Run)
    ensures StatusCode(run.reply) in {200, 404, 500}
    ensures StatusCode(run.reply) == 500 <==> Crawl(url, pages, http).Failure?
    ensures StatusCode(run.reply) == 404 <==> Crawl(url, pages, http) == Success([])
    ensures run.reply.Sentiments? ==> |run.reply.results| > 0
  {
    var fetched := Fetches(Attempted(url, pages, http));
    match Crawl(url, pages, http)
    case Failure(message) => Run(Error(500, message), fetched)
    case Success(reviews) =>
      if reviews == [] then Run(Error(404, "No reviews found"), fetched)
      else Run(Sentiments(Assessed(reviews, scorer)), fetched + Scorings(reviews))
  }

  /** `num_pages` is converted before `base_url` is looked at and before
      anything is requested: a ValueError answers 400, any other exception
      of `int()` answers 500 with its message. */
  lemma NumPagesCheckedFirst(req: Request, robots: RobotsOracle, http: Transport, scorer: Scorer)
    requires !NumPagesOf(req).Converted?
    ensures Analyze(req, robots, http, scorer).effects == []
    ensures NumPagesOf(req).NotAnInteger? ==>
      Analyze(req, robots, http, scorer).reply == Error(400, "num_pages must be an integer")
    ensures NumPagesOf(req).ConversionError? ==>
      Analyze(req, robots, http, scorer).reply == Error(500, NumPagesOf(req).message)
  {
  }

  /** A missing or empty `base_url` is rejected, whatever integer `num_pages`
      holds, before anything is requested. */
  lemma BaseUrlRequired(req: Request, robots: RobotsOracle, http: Transport, scorer: Scorer)
    requires NumPagesOf(req).Converted? && !HasBaseUrl(req)
    ensures Analyze(req, robots, http, scorer) == Run(Error(400, "Base URL is required"), [])
  {
  }

  /** A denial by robots.txt (or a failure to read it) answers 403 after the
      one policy query: no page is fetched and nothing is scored. */
  lemma RobotsDenialStopsCrawl(req: Request, robots: RobotsOracle, http: Transport, scorer: Scorer)
    requires NumPagesOf(req).Converted? && HasBaseUrl(req)
    requires robots(req.baseUrl.value + "/robots.txt", "*", req.baseUrl.value) != Answered(true)
    ensures Analyze(req, robots, http, scorer).reply == Error(403, "Scraping not allowed by robots.txt")
    ensures Analyze(req, robots, http, scorer).effects
      == [RobotsQuery(req.baseUrl.value + "/robots.txt", req.baseUrl.value)]
  {
  }

  /** An exception escaping a page fetch, once the checks passed, answers 500
      with its message, and nothing is scored. */
  lemma CrashIsServerError(req: Request, robots: RobotsOracle, http: Transport, scorer: Scorer)
    requires NumPagesOf(req).Converted? && HasBaseUrl(req) && IsScrapingAllowed(req.baseUrl.value, robots)
    requires Crawl(req.baseUrl.value, Pages(NumPagesOf(req).value), http).Failure?
    ensures Analyze(req, robots, http, scorer).reply
      == Error(500, Crawl(req.baseUrl.value, Pages(NumPagesOf(req).value), http).error)
    ensures forall e :: e in Analyze(req, robots, http, scorer).effects ==> !e.Scoring?
  {
  }

  /** The reply is 404 exactly when every check passed and the crawl ended
      normally with no review. */
  lemma NotFoundIff(req: Request, robots: RobotsOracle, http: Transport, scorer: Scorer)
    ensures Analyze(req, robots, http, scorer).reply == Error(404, "No reviews found") <==>
      && NumPagesOf(req).Converted? && HasBaseUrl(req) && IsScrapingAllowed(req.baseUrl.value, robots)
      && Crawl(req.baseUrl.value, Pages(NumPagesOf(req).value), http) == Success([])
  {
  }

  /** The ordering as a whole: a page is fetched only after `num_pages`
      converted, `base_url` was given and robots.txt allowed it; a review is
      scored only when the reply carries sentiments. */
  lemma EffectsFollowGates(req: Request, robots: RobotsOracle, http: Transport, scorer: Scorer)
    ensures var run := Analyze(req, robots, http, scorer);
      forall e :: e in run.effects && !e.RobotsQuery? ==>
        NumPagesOf(req).Converted? && HasBaseUrl(req) && IsScrapingAllowed(req.baseUrl.value, robots)
    ensures var run := Analyze(req, robots, http, scorer);
      forall e :: e in run.effects && e.Scoring? ==> run.reply.Sentiments?
  {
    var run := Analyze(req, robots, http, scorer);
    if NumPagesOf(req).Converted? && HasBaseUrl(req) && IsScrapingAllowed(req.baseUrl.value, robots) {
      var url := req.baseUrl.value;
      var rest := CollectAndScore(url, Pages(NumPagesOf(req).value), http, scorer);
      assert run == Run(rest.reply, [RobotsQuery(RobotsUrl(url), url)] + rest.effects);
      CollectScoresOnlyOnSuccess(url, Pages(NumPagesOf(req).value), http, scorer);
    } else {
      assert forall e :: e in run.effects ==> e.RobotsQuery?;
    }
  }

  /** After the gates, a review is scored only when the reply carries
      sentiments. */
  lemma CollectScoresOnlyOnSuccess(url: string, pages: nat, http: Transport, scorer: Scorer)
    ensures var run := CollectAndScore(url, pages, http, scorer);
      forall e :: e in run.effects && e.Scoring? ==> run.reply.Sentiments?
  {
    var run := CollectAndScore(url, pages, http, scorer);
    var fetched := Fetches(Attempted(url, pages, http));
    assert forall e :: e in fetched ==> e.PageFetch?;
    if !run.reply.Sentiments? {
      assert run.effects == fetched;
    }
  }

  /** When every page fails or has no reviews the reply is 404, after every
      page 0 .. num_pages - 1 was requested in order, and nothing is scored. */
  lemma NoReviewsIsNotFound(req: Request, robots: RobotsOracle, http: Transport, scorer: Scorer)
    requires NumPagesOf(req).Converted? && HasBaseUrl(req) && IsScrapingAllowed(req.baseUrl.value, robots)
    requires var url, n := req.baseUrl.value, Pages(NumPagesOf(req).value);
      NoCrash(url, n, http) && forall p :: 0 <= p < n ==> PageReviews(url, p, http) == Success([])
    ensures var url, n := req.baseUrl.value, Pages(NumPagesOf(req).value);
      var run := Analyze(req, robots, http, scorer);
      && run.reply == Error(404, "No reviews found")
      && |run.effects| == n + 1
      && run.effects[0] == RobotsQuery(url + "/robots.txt", url)
      && forall p :: 0 <= p < n ==> run.effects[p + 1] == PageFetch(PageUrl(url, p))
  {
    var url, n := req.baseUrl.value, Pages(NumPagesOf(req).value);
    var fetched := Fetches(Attempted(url, n, http));
    var run := Analyze(req, robots, http, scorer);
    CollectNothing(url, n, http, scorer);
    assert run == Run(Error(404, "No reviews found"), [RobotsQuery(url + "/robots.txt", url)] + fetched);
    forall p | 0 <= p < n
      ensures run.effects[p + 1] == PageFetch(PageUrl(url, p))
    {
      assert run.effects[p + 1] == fetched[p];
    }
  }

  /** After the robots check, pages that all fail or are empty answer 404
      having fetched every page in order. */
  lemma CollectNothing(url: string, n: nat, http: Transport, scorer: Scorer)
    requires NoCrash(url, n, http) && forall p :: 0 <= p < n ==> PageReviews(url, p, http) == Success([])
    ensures var fetched := Fetches(Attempted(url, n, http));
      && CollectAndScore(url, n, http, scorer) == Run(Error(404, "No reviews found"), fetched)
      && |fetched| == n
      && forall p :: 0 <= p < n ==> fetched[p] == PageFetch(PageUrl(url, p))
  {
    assert Crawl(url, n, http) == Success([]) by {
      CrawlEmptyIff(url, n, http);
    }
    AttemptedEveryPage(url, n, http);
  }

  /** The reply is 200 exactly when every check passed and the crawl
      collected at least one review; it then holds one record per collected
      review, in collection order, each categorized by the thresholds. */
  lemma SuccessCarriesEveryReview(req: Request, robots: RobotsOracle, http: Transport, scorer: Scorer)
    ensures Analyze(req, robots, http, scorer).reply.Sentiments? <==>
      && NumPagesOf(req).Converted? && HasBaseUrl(req) && IsScrapingAllowed(req.baseUrl.value, robots)
      && var reviews := Crawl(req.baseUrl.value, Pages(NumPagesOf(req).value), http);
         reviews.Success? && reviews.value != []
    ensures var reply := Analyze(req, robots, http, scorer).reply;
      reply.Sentiments? ==>
        && NumPagesOf(req).Converted? && HasBaseUrl(req)
        && var reviews := Crawl(req.baseUrl.value, Pages(NumPagesOf(req).value), http);
        && reviews.Success?
        && reply.results == Assessed(reviews.value, scorer)
        && ReviewsOf(reply.results) == reviews.value
        && forall i :: 0 <= i < |reply.results| ==>
          reply.results[i].category == Categorize(scorer(reviews.value[i]).compound)
  {
    if Analyze(req, robots, http, scorer).reply.Sentiments? {
      assert NumPagesOf(req).Converted? && HasBaseUrl(req);
      var reviews := Crawl(req.baseUrl.value, Pages(NumPagesOf(req).value), http);
      ReviewsOfAssessed(reviews.value, scorer);
    }
  }

  lemma ScenarioFirstPage(baseUrl: string, http: Transport)
    requires http(baseUrl + "reviews?start=0") == Received(200, Document(["Great film", "Terrible waste"]))
    ensures PageReviews(baseUrl, 0, http) == Success(["Great film", "Terrible waste"])
  {
    var first: seq<string> := ["Great film", "Terrible waste"];
    assert NatToString(0) == "0";
    assert PageUrl(baseUrl, 0) == baseUrl + "reviews?start=0";
    assert Stripped(first[0]) && Stripped(first[1]);
    ExtractReviewsOfStripped(first);
  }

  lemma ScenarioSecondPage(baseUrl: string, http: Transport)
    requires http(baseUrl + "reviews?start=10") == Received(200, Document([]))
    ensures PageReviews(baseUrl, 1, http) == Success([])
  {
    assert NatToString(10) == "10";
    assert PageUrl(baseUrl, 1) == baseUrl + "reviews?start=10";
  }

  /** The crawl of the two-page scenario: page 0's two reviews, nothing
      from page 1. */
  lemma TwoPageCrawl(baseUrl: string, http: Transport)
    requires http(baseUrl + "reviews?start=0") == Received(200, Document(["Great film", "Terrible waste"]))
    requires http(baseUrl + "reviews?start=10") == Received(200, Document([]))
    ensures Crawl(baseUrl, 2, http) == Success(["Great film", "Terrible waste"])
  {
    var first: seq<string> := ["Great film", "Terrible waste"];
    ScenarioFirstPage(baseUrl, http);
    ScenarioSecondPage(baseUrl, http);
    assert [] + first == first && first + [] == first;
    assert Crawl(baseUrl, 1, http) == Success(first);
  }

  /** The two-page scenario: page 0 holds two reviews and page 1 none; the
      reply holds the two records in page order. */
  lemma TwoPageScenario(baseUrl: string, robots: RobotsOracle, http: Transport, scorer: Scorer)
    requires baseUrl != "" && IsScrapingAllowed(baseUrl, robots)
    requires http(baseUrl + "reviews?start=0") == Received(200, Document(["Great film", "Terrible waste"]))
    requires http(baseUrl + "reviews?start=10") == Received(200, Document([]))
    ensures Analyze(Request(Some(baseUrl), Some(Converted(2))), robots, http, scorer).reply
      == Sentiments([Assess("Great film", scorer), Assess("Terrible waste", scorer)])
  {
    var reviews: seq<string> := ["Great film", "Terrible waste"];
    TwoPageCrawl(baseUrl, http);
    assert CollectAndScore(baseUrl, 2, http, scorer).reply == Sentiments(Assessed(reviews, scorer));
    assert Assessed(reviews, scorer) == [Assess(reviews[0], scorer), Assess(reviews[1], scorer)];
  }

  /** The part of `analyze` after the robots check, run step by step: the
      crawl loop, the check for an empty result, then the scoring loop. */
  method CrawlAndScore(baseUrl: string, numPages: int, http: Transport, scorer: Scorer)
    returns (reply: Reply, effects: seq<Effect>)
    ensures Run(reply, effects) == CollectAndScore(baseUrl, Pages(numPages), http, scorer)
  {
    var collected, requested := GetAllReviews(baseUrl, numPages, http);
    effects := Fetches(requested);
    if collected.Failure? {
      reply := Error(500, collected.error);
    } else if |collected.value| == 0 {
      reply := Error(404, "No reviews found");
    } else {
      var sentiments, scored := AnalyzeSentiment(collected.value, scorer);
      reply := Sentiments(sentiments);
      effects := effects + Scorings(scored);
    }
  }

  /** The endpoint run step by step; it answers and calls as Analyze
      specifies. */
  method AnalyzeRequest(req: Request, robots: RobotsOracle, http: Transport, scorer: Scorer)
    returns (reply: Reply, effects: seq<Effect>)
    ensures Run(reply, effects) == Analyze(req, robots, http, scorer)
  {
    var conversion := NumPagesOf(req);
    if conversion.NotAnInteger? {
      return Error(400, "num_pages must be an integer"), [];
    } else if conversion.ConversionError? {
      return Error(500, conversion.message), [];
    }
    if !HasBaseUrl(req) {
      return Error(400, "Base URL is required"), [];
    }
    var baseUrl := req.baseUrl.value;
    var gate := [RobotsQuery(RobotsUrl(baseUrl), baseUrl)];
    if !IsScrapingAllowed(baseUrl, robots) {
      return Error(403, "Scraping not allowed by robots.txt"), gate;
    }
    var crawled;
    reply, crawled := CrawlAndScore(baseUrl, conversion.value, http, scorer);
    effects := gate + crawled;
  }
}
