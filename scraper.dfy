/** The crawling side of the backend: the robots.txt gate, fetching one page,
    extracting its reviews, and the pagination loop that collects them. The
    robots.txt reader, the HTTP transport and the HTML parser are external;
    each is represented by the outcome it reports. */
module Scraper {
  import opened Wrappers
  import opened Text

  const RobotsSuffix := "/robots.txt"
  const UserAgent := "*"
  const PageQuery := "reviews?start="
  /** Reviews per page: page `p` starts at review `p * PageSize`. */
  const PageSize: nat := 10

  /** What reading a robots.txt and asking it about a URL reports: an
      exception anywhere in setting the URL, reading or matching, or the
      answer to "may this agent fetch this URL". */
  datatype RobotsOutcome = ReadFailed(message: string) | Answered(canFetch: bool)

  /** The robots.txt reader: (policy URL, user agent, URL asked about). */
  type RobotsOracle = (string, string, string) -> RobotsOutcome

  function RobotsUrl(url: string): string {
    url + RobotsSuffix
  }

  /** `is_scraping_allowed`: the policy at `url + "/robots.txt"` is asked
      about `url` itself for every agent; any failure denies (fail-closed). */
  function IsScrapingAllowed(url: string, robots: RobotsOracle): (allowed: bool)
    ensures allowed <==> robots(url + "/robots.txt", "*", url) == Answered(true)
    ensures robots(url + "/robots.txt", "*", url).ReadFailed? ==> !allowed
  {
    match robots(RobotsUrl(url), UserAgent, url)
    case ReadFailed(_) => false
    case Answered(ok) => ok
  }

  /** A parsed page, reduced to what the review selector (a `div` with the
      classes `text show-more__control`) sees in it: the text of each
      matching node, in document order. */
  datatype Document = Document(reviewNodes: seq<string>)

  /** What one GET reports: a requests exception (connection, timeout,
      malformed URL, ...), a response with its status and parsed body, or an
      exception of any other kind, which `get_soup` does not catch. */
  datatype HttpOutcome =
    | RequestFailed(message: string)
    | Received(status: int, document: Document)
    | Crashed(message: string)

  type Transport = string -> HttpOutcome

  /** The statuses `raise_for_status` turns into an HTTPError. */
  predicate IsHttpError(status: int) {
    400 <= status < 600
  }

  /** `get_soup`: the parsed page, `None` on any requests exception
      (including the HTTPError of a 4xx or 5xx status), and the exception
      itself, escaping, for anything else. */
  function GetSoup(url: string, http: Transport): (r: Result<Option<Document>>)
    ensures r.Failure? <==> http(url).Crashed?
    ensures r == Success(None) <==>
      (http(url).RequestFailed? || (http(url).Received? && IsHttpError(http(url).status)))
    ensures r.Success? && r.value.Some? ==>
      http(url).Received? && !IsHttpError(http(url).status) && r.value.value == http(url).document
  {
    match http(url)
    case RequestFailed(_) => Success(None)
    case Received(status, doc) => if IsHttpError(status) then Success(None) else Success(Some(doc))
    case Crashed(message) => Failure(message)
  }

  /** `extract_reviews`: one review per matched node, in document order,
      with surrounding whitespace removed. */
  function ExtractReviews(doc: Document): (reviews: seq<string>)
    ensures |reviews| == |doc.reviewNodes|
    ensures forall i :: 0 <= i < |reviews| ==> Stripped(reviews[i])
    ensures forall i :: 0 <= i < |reviews| ==> reviews[i] == Strip(doc.reviewNodes[i])
  {
    seq(|doc.reviewNodes|, i requires 0 <= i < |doc.reviewNodes| => Strip(doc.reviewNodes[i]))
  }

  /** Extracting again from already-extracted texts changes nothing. */
  lemma ExtractReviewsIdempotent(doc: Document)
    ensures ExtractReviews(Document(ExtractReviews(doc))) == ExtractReviews(doc)
  {
    var once := ExtractReviews(doc);
    forall i | 0 <= i < |once| ensures Strip(once[i]) == once[i] {
      StripIdempotent(doc.reviewNodes[i]);
    }
  }

  /** Nodes whose text has no surrounding whitespace are extracted verbatim. */
  lemma ExtractReviewsOfStripped(nodes: seq<string>)
    requires forall i :: 0 <= i < |nodes| ==> Stripped(nodes[i])
    ensures ExtractReviews(Document(nodes)) == nodes
  {
    forall i | 0 <= i < |nodes| ensures Strip(nodes[i]) == nodes[i] {
      StripPadded([], nodes[i], []);
      assert [] + nodes[i] + [] == nodes[i];
    }
  }

  /** Extraction follows document order: the reviews of two consecutive runs
      of nodes are those of the first run, then those of the second. */
  lemma ExtractReviewsAppend(a: seq<string>, b: seq<string>)
    ensures ExtractReviews(Document(a + b)) == ExtractReviews(Document(a)) + ExtractReviews(Document(b))
  {
    var l, x, y := ExtractReviews(Document(a + b)), ExtractReviews(Document(a)), ExtractReviews(Document(b));
    assert |l| == |x + y|;
    forall i | 0 <= i < |l| ensures l[i] == (x + y)[i] {
      if i < |a| {
        assert l[i] == Strip((a + b)[i]) == Strip(a[i]) == x[i];
      } else {
        assert l[i] == Strip((a + b)[i]) == Strip(b[i - |a|]) == y[i - |a|];
      }
    }
  }

  /** The URL of page `page`: `base_url + "reviews?start=" + str(page * 10)`. */
  function PageUrl(baseUrl: string, page: nat): (url: string)
    ensures |url| > |baseUrl| + 14 && url[..|baseUrl| + 14] == baseUrl + "reviews?start="
  {
    baseUrl + PageQuery + NatToString(page * PageSize)
  }

  /** What follows `reviews?start=` in the URL of page `page` reads back as
      the offset `page * 10`. */
  lemma PageUrlOffset(baseUrl: string, page: nat)
    ensures AllDigits(PageUrl(baseUrl, page)[|baseUrl| + 14..])
    ensures DecimalValue(PageUrl(baseUrl, page)[|baseUrl| + 14..]) == page * 10
  {
    var offset := NatToString(page * PageSize);
    assert PageUrl(baseUrl, page)[|baseUrl| + 14..] == offset;
    DecimalRoundTrip(page * PageSize);
  }

  /** Distinct pages are fetched from distinct URLs. */
  lemma PageUrlInjective(baseUrl: string, p: nat, q: nat)
    requires PageUrl(baseUrl, p) == PageUrl(baseUrl, q)
    ensures p == q
  {
    var prefix := baseUrl + PageQuery;
    assert NatToString(p * PageSize) == PageUrl(baseUrl, p)[|prefix|..];
    assert NatToString(q * PageSize) == PageUrl(baseUrl, q)[|prefix|..];
    NatToStringInjective(p * PageSize, q * PageSize);
  }

  /** Pages `range(num_pages)` visits. */
  function Pages(numPages: int): nat {
    if numPages < 0 then 0 else numPages
  }

  /** What page `page` adds to the collection: nothing when it could not be
      fetched, its extracted reviews otherwise; or the escaping exception. */
  function PageReviews(baseUrl: string, page: nat, http: Transport): (r: Result<seq<string>>)
    ensures r.Failure? <==> http(PageUrl(baseUrl, page)).Crashed?
    ensures GetSoup(PageUrl(baseUrl, page), http) == Success(None) ==> r == Success([])
    ensures var soup := GetSoup(PageUrl(baseUrl, page), http);
      soup.Success? && soup.value.Some? ==> r == Success(ExtractReviews(soup.value.value))
  {
    match GetSoup(PageUrl(baseUrl, page), http)
    case Failure(message) => Failure(message)
    case Success(None) => Success([])
    case Success(Some(doc)) => Success(ExtractReviews(doc))
  }

  /** The reviews collected from the first `pages` pages: the concatenation,
      in page order, of what each page adds, or the first exception that
      escaped a page. */
  function Crawl(baseUrl: string, pages: nat, http: Transport): (r: Result<seq<string>>)
    ensures r.Failure? <==> !NoCrash(baseUrl, pages, http)
  {
    if pages == 0 then Success([])
    else match Crawl(baseUrl, pages - 1, http)
      case Failure(message) => Failure(message)
      case Success(acc) =>
        match PageReviews(baseUrl, pages - 1, http)
        case Failure(message) => Failure(message)
        case Success(reviews) => Success(acc + reviews)
  }

  /** The URLs requested while crawling the first `pages` pages: one per page,
      in order, up to and including a page whose exception escapes. */
  function Attempted(baseUrl: string, pages: nat, http: Transport): (urls: seq<string>)
    ensures |urls| <= pages
    ensures Crawl(baseUrl, pages, http).Success? ==> |urls| == pages
    ensures forall p :: 0 <= p < |urls| ==> urls[p] == PageUrl(baseUrl, p)
  {
    if pages == 0 then []
    else if Crawl(baseUrl, pages - 1, http).Failure? then Attempted(baseUrl, pages - 1, http)
    else Attempted(baseUrl, pages - 1, http) + [PageUrl(baseUrl, pages - 1)]
  }

  /** No page among the first `pages` raises anything but a requests exception. */
  predicate NoCrash(baseUrl: string, pages: nat, http: Transport) {
    forall p :: 0 <= p < pages ==> !http(PageUrl(baseUrl, p)).Crashed?
  }

  /** Once an exception escapes, the crawl stops: later pages are neither
      requested nor able to change the outcome. */
  lemma {:induction false} CrawlStopsAfterFailure(baseUrl: string, k: nat, n: nat, http: Transport)
    requires k <= n && Crawl(baseUrl, k, http).Failure?
    ensures Crawl(baseUrl, n, http) == Crawl(baseUrl, k, http)
    ensures Attempted(baseUrl, n, http) == Attempted(baseUrl, k, http)
  {
    if k < n {
      CrawlStopsAfterFailure(baseUrl, k, n - 1, http);
    }
  }

  /** Without an escaping exception every page is requested, once, in
      increasing order, at offsets 0, 10, 20, ... */
  lemma {:induction false} AttemptedEveryPage(baseUrl: string, n: nat, http: Transport)
    requires NoCrash(baseUrl, n, http)
    ensures Crawl(baseUrl, n, http).Success?
    ensures |Attempted(baseUrl, n, http)| == n
    ensures forall p :: 0 <= p < n ==>
      Attempted(baseUrl, n, http)[p] == baseUrl + "reviews?start=" + NatToString(p * 10)
  {
    if n > 0 {
      AttemptedEveryPage(baseUrl, n - 1, http);
      assert !http(PageUrl(baseUrl, n - 1)).Crashed?;
    }
  }

  /** Pages that fail or yield nothing are skipped without ending the crawl:
      the result is empty exactly when every page contributed nothing. */
  lemma {:induction false} CrawlEmptyIff(baseUrl: string, n: nat, http: Transport)
    requires NoCrash(baseUrl, n, http)
    ensures Crawl(baseUrl, n, http).Success?
    ensures forall p :: 0 <= p < n ==> PageReviews(baseUrl, p, http).Success?
    ensures Crawl(baseUrl, n, http).value == [] <==>
      forall p :: 0 <= p < n ==> PageReviews(baseUrl, p, http).value == []
  {
    if n > 0 {
      CrawlEmptyIff(baseUrl, n - 1, http);
      assert !http(PageUrl(baseUrl, n - 1)).Crashed?;
    }
  }

  /** A page that cannot be fetched, or has no reviews, is still requested,
      adds nothing, and the crawl goes on to the next page. */
  lemma SkippedPageAddsNothing(baseUrl: string, p: nat, n: nat, http: Transport)
    requires p < n && NoCrash(baseUrl, n, http)
    requires GetSoup(PageUrl(baseUrl, p), http) == Success(None)
      || GetSoup(PageUrl(baseUrl, p), http) == Success(Some(Document([])))
    ensures PageReviews(baseUrl, p, http) == Success([])
    ensures Crawl(baseUrl, p + 1, http) == Crawl(baseUrl, p, http)
    ensures |Attempted(baseUrl, n, http)| == n && Attempted(baseUrl, n, http)[p] == PageUrl(baseUrl, p)
  {
    AttemptedEveryPage(baseUrl, n, http);
    AttemptedEveryPage(baseUrl, p, http);
    assert !http(PageUrl(baseUrl, p)).Crashed?;
    assert Crawl(baseUrl, p, http).value + [] == Crawl(baseUrl, p, http).value;
  }

  /** Order preservation: what the first `m` pages collect is a prefix of
      what the first `n >= m` pages collect. */
  lemma {:induction false} CrawlPrefix(baseUrl: string, m: nat, n: nat, http: Transport)
    requires m <= n && NoCrash(baseUrl, n, http)
    ensures Crawl(baseUrl, m, http).Success? && Crawl(baseUrl, n, http).Success?
    ensures Crawl(baseUrl, m, http).value <= Crawl(baseUrl, n, http).value
  {
    if m < n {
      assert NoCrash(baseUrl, n - 1, http);
      CrawlPrefix(baseUrl, m, n - 1, http);
      var before, page := Crawl(baseUrl, n - 1, http).value, PageReviews(baseUrl, n - 1, http).value;
      assert Crawl(baseUrl, n, http) == Success(before + page) by {
        assert !http(PageUrl(baseUrl, n - 1)).Crashed?;
      }
      PrefixExtends(Crawl(baseUrl, m, http).value, before, page);
    }
  }

  /** A prefix of `before` stays a prefix once `after` is appended. */
  lemma PrefixExtends(prefix: seq<string>, before: seq<string>, after: seq<string>)
    requires prefix <= before
    ensures prefix <= before + after
  {
    assert (before + after)[..|prefix|] == before[..|prefix|];
  }

  /** The reviews of page `p` appear contiguously and in their in-page order,
      right after those of all earlier pages. */
  lemma PageBlock(baseUrl: string, p: nat, n: nat, http: Transport)
    requires p < n && NoCrash(baseUrl, n, http)
    ensures Crawl(baseUrl, p, http).Success? && Crawl(baseUrl, n, http).Success?
    ensures PageReviews(baseUrl, p, http).Success?
    ensures var start, page := |Crawl(baseUrl, p, http).value|, PageReviews(baseUrl, p, http).value;
      start + |page| <= |Crawl(baseUrl, n, http).value|
      && Crawl(baseUrl, n, http).value[start..start + |page|] == page
  {
    assert !http(PageUrl(baseUrl, p)).Crashed?;
    assert Crawl(baseUrl, p + 1, http).Success? && Crawl(baseUrl, n, http).Success?
      && Crawl(baseUrl, p + 1, http).value <= Crawl(baseUrl, n, http).value by {
      CrawlPrefix(baseUrl, p + 1, n, http);
    }
    assert Crawl(baseUrl, p, http).Success? by {
      CrawlPrefix(baseUrl, p, p + 1, http);
    }
    var before, page := Crawl(baseUrl, p, http).value, PageReviews(baseUrl, p, http).value;
    assert Crawl(baseUrl, p + 1, http).value == before + page;
    BlockOfPrefix(before, page, Crawl(baseUrl, n, http).value);
  }

  /** A prefix `before + block` of `all` places `block` right after `before`. */
  lemma BlockOfPrefix(before: seq<string>, block: seq<string>, all: seq<string>)
    requires before + block <= all
    ensures |before| + |block| <= |all| && all[|before|..|before| + |block|] == block
  {
    assert all[..|before| + |block|] == before + block;
    assert all[|before|..|before| + |block|] == (before + block)[|before|..];
  }

  /** `get_all_reviews`: request pages 0 .. num_pages - 1 in order, skip a
      page that cannot be fetched or has no reviews, and append the reviews
      of the others. Also returns the URLs it requested, in order. */
  method GetAllReviews(baseUrl: string, numPages: int, http: Transport)
    returns (reviews: Result<seq<string>>, requested: seq<string>)
    ensures reviews == Crawl(baseUrl, Pages(numPages), http)
    ensures requested == Attempted(baseUrl, Pages(numPages), http)
    ensures numPages <= 0 ==> reviews == Success([]) && requested == []
  {
    var all: seq<string> := [];
    requested := [];
    var page: nat := 0;
    while page < numPages
      invariant page <= Pages(numPages)
      invariant Crawl(baseUrl, page, http) == Success(all)
      invariant requested == Attempted(baseUrl, page, http)
    {
      var url := PageUrl(baseUrl, page);
      requested := requested + [url];
      var soup := GetSoup(url, http);
      match soup {
        case Failure(message) =>
          reviews := Failure(message);
          CrawlStopsAfterFailure(baseUrl, page + 1, Pages(numPages), http);
          return;
        case Success(None) =>
          assert PageReviews(baseUrl, page, http) == Success([]);
          assert all + [] == all;
        case Success(Some(doc)) =>
          var pageReviews := ExtractReviews(doc);
          assert PageReviews(baseUrl, page, http) == Success(pageReviews);
          if |pageReviews| > 0 {
            all := all + pageReviews;
          } else {
            assert all + pageReviews == all;
          }
      }
      page := page + 1;
    }
    reviews := Success(all);
  }
}
