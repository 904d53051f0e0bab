# Movie-sentiment backend, modelled in Dafny

The backend answers one request, `POST /analyze`, with a JSON body holding
`base_url` and an optional `num_pages` (default 5). It checks robots.txt,
crawls the review pages `base_url + "reviews?start=0"`, `...start=10`, ...,
pulls the review texts out of each page, and scores each review with a
lexicon-based polarity model. A review is `positive` when its compound score
is at least 0.05, `negative` when it is at most -0.05, and `neutral` otherwise.

The model is in five modules:

- `Wrappers` (`wrappers.dfy`): `Option` and `Result`. The failure side of `Result` carries the message of an exception that escaped.
- `Text` (`text.dfy`): Python's `str.strip()`, with `str.isspace()`'s set of whitespace characters, and `str()` of a non-negative integer.
- `Sentiment` (`sentiment.dfy`): `categorize_sentiment`, and `analyze_sentiment` as a loop over the reviews.
- `Scraper` (`scraper.dfy`): `is_scraping_allowed`, `get_soup`, `extract_reviews`, and `get_all_reviews` as a loop with an accumulator, specified by the recursive function `Crawl`.
- `Pipeline` (`pipeline.dfy`): the decision chain of `analyze`.

The external libraries are parameters. Each one is a function from its input to the outcome it reports:

- the robots.txt reader: (policy URL, user agent, URL) to an exception or a yes/no answer;
- the HTTP transport: URL to a requests exception, a response (status and parsed page), or an exception of another kind;
- the polarity scorer: text to four real scores.

A result record holds the category as a value of `Category`; `Label` gives the string (`positive`, `neutral` or `negative`) under which the reply reports it.

A parsed page is reduced to what the review selector sees in it: the text of each matching node, in document order.

`Analyze` also returns, in order, every external call the run makes: the robots.txt query, each page fetch and each scoring. This record is what the short-circuit lemmas are about. `AnalyzeRequest` runs the same chain step by step, using the loop methods `GetAllReviews` and `AnalyzeSentiment`, and is proved to produce exactly what `Analyze` specifies; `CrawlAndScore` is its part after the robots check.

The model follows the code as written. Some of its behaviours a reader may not expect:

- `raise_for_status` raises only for statuses 400 to 599. A 1xx or 3xx response that reaches `get_soup` is therefore parsed, not treated as a failure.
- `get_soup` catches only requests exceptions. Any other exception escapes, stops the crawl, and `analyze` turns it into a 500. The pages after that one are not requested (`CrawlStopsAfterFailure`).
- A matched node whose text is only whitespace gives an empty review. The code does not filter it out.
- `int()` of `null`, a list or an object raises TypeError, which `except ValueError` does not catch. The outer handler turns it into a 500, not a 400.
- The robots.txt policy is asked about `base_url` itself, never about the page URLs that are actually fetched.

## Model

| member | source | states |
|---|---|---|
| `Text.Strip` | backend/app.py:48 | the stripped text neither begins nor ends with whitespace and is no longer than the input |
| `Text.StripDecomposes` | backend/app.py:48 | the input is some whitespace, then the stripped text, then some whitespace |
| `Text.StripPadded` | backend/app.py:48 | conversely, stripping a whitespace-padded text that has no outer whitespace returns it exactly |
| `Text.StripIdempotent` | backend/app.py:48 | stripping twice is stripping once |
| `Text.NatToString` | backend/app.py:55 | the page offset is written as at least one decimal digit, with no leading zero unless it is `0` |
| `Text.DecimalRoundTrip` | backend/app.py:55 | reading the digits back gives the offset: decimal writing is inverted by decimal reading |
| `Text.NatToStringInjective` | backend/app.py:55 | distinct offsets are written differently |
| `Sentiment.Categorize` | backend/app.py:70-76 | positive iff compound >= 0.05, negative iff compound <= -0.05, neutral iff strictly between; both thresholds inclusive |
| `Sentiment.CategorizeMonotone` | backend/app.py:70-76 | a higher compound score never gives a lower category |
| `Sentiment.CategorizeBoundaries` | backend/app.py:70-76 | 0.05 is positive, -0.05 is negative, 0.0 and ±0.0499 are neutral |
| `Sentiment.Label` | backend/app.py:72-76 | the string reported for a category is one of `positive`, `neutral` or `negative` |
| `Sentiment.LabelOfCompound` | backend/app.py:71-76 | the reported string is `positive` iff compound >= 0.05, `negative` iff compound <= -0.05, and `neutral` iff strictly between |
| `Sentiment.LabelInjective` | backend/app.py:72-76 | the three category labels `positive`, `neutral`, `negative` are distinct |
| `Sentiment.Assessed` | backend/app.py:83-92 | one record per review, same length; record i holds review i, its scores and the category of its compound score |
| `Sentiment.ReviewsOfAssessed` | backend/app.py:86-90 | the review texts read back from the records are the input reviews, in order, each once |
| `Sentiment.AssessedAppend` | backend/app.py:83-92 | scoring the reviews of two pages together gives the first page's records, then the second's |
| `Sentiment.AnalyzeSentiment` | backend/app.py:79-92 | the loop produces exactly the specified records: same length, same order, `review`, `scores` and `category` per entry; it calls the scorer once per review, in order |
| `Scraper.IsScrapingAllowed` | backend/app.py:23-32 | allowed iff the policy at `url + "/robots.txt"` answers yes for agent `*` and `url`; a read failure denies |
| `Scraper.GetSoup` | backend/app.py:35-43 | `None` exactly on a requests exception or a 4xx/5xx status; the parsed page for any other response; any other exception escapes |
| `Scraper.ExtractReviews` | backend/app.py:46-49 | one review per matched node, in document order, each the node's text stripped, so none has outer whitespace |
| `Scraper.ExtractReviewsIdempotent` | backend/app.py:48 | extracting from already-extracted texts changes nothing |
| `Scraper.ExtractReviewsOfStripped` | backend/app.py:48 | node texts without outer whitespace are extracted verbatim |
| `Scraper.ExtractReviewsAppend` | backend/app.py:47-48 | extraction keeps document order across consecutive runs of nodes |
| `Scraper.PageUrl` | backend/app.py:55 | the URL of a page is `base_url` followed by `reviews?start=` and then the offset |
| `Scraper.PageUrlOffset` | backend/app.py:55 | what follows `reviews?start=` is all decimal digits and reads back as the page number times 10 |
| `Scraper.PageUrlInjective` | backend/app.py:55 | distinct pages are requested at distinct URLs |
| `Scraper.PageReviews` | backend/app.py:57-65 | one page's step: a failure exactly when the fetch raises an exception other than a requests exception; nothing added when the page could not be fetched; otherwise exactly the reviews extracted from the fetched page |
| `Scraper.Crawl` | backend/app.py:53-67 | the concatenation, in page order, of what each page adds, or the message of the first exception that escapes a fetch; a failure exactly when some page's fetch raises such an exception |
| `Scraper.Attempted` | backend/app.py:54-57 | the URLs requested, in order: at most one per page, page p's URL at position p, and all n of them when no exception escaped |
| `Scraper.CrawlStopsAfterFailure` | backend/app.py:54-67 | after an escaping exception no further page is requested and the outcome stays that exception |
| `Scraper.AttemptedEveryPage` | backend/app.py:54-57 | without an escaping exception exactly n pages are requested, page p at `base_url + "reviews?start=" + str(p * 10)`, in increasing order |
| `Scraper.SkippedPageAddsNothing` | backend/app.py:58-66 | a page that cannot be fetched or has no reviews is still requested, adds nothing, and the crawl continues |
| `Scraper.CrawlEmptyIff` | backend/app.py:53-67 | the collected list is empty iff every page failed or yielded nothing |
| `Scraper.CrawlPrefix` | backend/app.py:53-67 | what the first m pages collect is a prefix of what the first n >= m pages collect |
| `Scraper.PageBlock` | backend/app.py:59-61 | page p's reviews sit contiguously, in in-page order, right after the reviews of pages 0 .. p-1 |
| `Scraper.GetAllReviews` | backend/app.py:52-67 | the loop returns exactly the crawl's result and requests exactly the specified URLs; a non-positive `num_pages` requests nothing and returns `[]` |
| `Pipeline.Analyze` | backend/app.py:95-125 | the status is one of 200, 400, 403, 404 and 500; a 200 reply is never empty |
| `Pipeline.CollectAndScore` | backend/app.py:113-125 | after the robots check the status is 200, 404 or 500; 500 exactly when an exception escaped the crawl, 404 exactly when the crawl collected nothing; a 200 reply is never empty |
| `Pipeline.NumPagesOf` | backend/app.py:99 | an absent `num_pages` converts to 5; a given one to the outcome of `int()` on it |
| `Pipeline.HasBaseUrl` | backend/app.py:107 | `base_url` counts as missing exactly when it is absent, null or the empty string |
| `Pipeline.NumPagesCheckedFirst` | backend/app.py:99-125 | a non-integer `num_pages` answers before anything is requested: 400 for ValueError, 500 with the message for any other exception |
| `Pipeline.BaseUrlRequired` | backend/app.py:107-108 | a missing or empty `base_url` answers 400 with nothing requested, whatever integer `num_pages` holds |
| `Pipeline.RobotsDenialStopsCrawl` | backend/app.py:110-111 | a robots denial or read failure answers 403, and the only call made is the one query of `base_url + "/robots.txt"` about `base_url`: no page fetched, nothing scored |
| `Pipeline.CrashIsServerError` | backend/app.py:113-125 | once the checks passed, an exception escaping a page fetch answers 500 with its message, and nothing is scored |
| `Pipeline.NotFoundIff` | backend/app.py:113-115 | the reply is 404 iff every check passed and the crawl ended normally with no review |
| `Pipeline.EffectsFollowGates` | backend/app.py:102-122 | a page is fetched only after `num_pages` converted, `base_url` was given and robots allowed; a review is scored only in a 200 reply |
| `Pipeline.CollectScoresOnlyOnSuccess` | backend/app.py:113-125 | after the robots check a review is scored only when the reply carries sentiments |
| `Pipeline.NoReviewsIsNotFound` | backend/app.py:113-115 | when every page fails or is empty, every page is requested in order and the reply is 404, with nothing scored |
| `Pipeline.CollectNothing` | backend/app.py:113-115 | after the robots check, when every page fails or is empty, the reply is 404 and every page is fetched, in order |
| `Pipeline.SuccessCarriesEveryReview` | backend/app.py:113-122 | the reply is 200 iff every check passed and the crawl collected at least one review; its records are then exactly `analyze_sentiment` of the collected reviews: one per review, in collection order, with the review's scores and the category of its compound score |
| `Pipeline.TwoPageCrawl` | backend/app.py:52-67 | page 0 with two reviews and an empty page 1 collect exactly page 0's two reviews |
| `Pipeline.TwoPageScenario` | backend/app.py:113-122 | in that scenario the reply is 200 with the two records in page order |
| `Pipeline.CrawlAndScore` | backend/app.py:113-125 | the crawl loop followed, when it found reviews, by the scoring loop answers and calls exactly as `CollectAndScore` specifies |
| `Pipeline.AnalyzeRequest` | backend/app.py:95-125 | the step-by-step run, with the two loops, answers and calls exactly as `Analyze` specifies |

## Left out

- The HTTP transport (`requests.get`), HTML parsing and the class selector (BeautifulSoup), and `RobotFileParser.read`/`can_fetch` are external libraries. Each is represented by the outcome it reports.
- The VADER scorer and `nltk.download` are an external lexicon model with floating-point arithmetic. The scorer is a total function from text to four real scores; its ranges (compound in [-1, 1]) are not assumed, because the model never needs them. An exception raised inside the scorer is not modelled.
- `time.sleep(1)` and all logging have no effect on the returned value and are not modelled.
- Flask setup, routing, CORS, `request.json` decoding and `jsonify` are not modelled. A body that is not a JSON object is also not modelled; it would end in the 500 handler.
- Python's `int()` on the `num_pages` value is an input: its result, a ValueError, or another exception with its message. The default of 5 for an absent key is modelled.
- `base_url` is modelled as absent or a string. A truthy non-string value, which would fail inside the robots check and be denied, is not modelled.
- A falsy `base_url` that is not a string (`0`, `false`, `[]`, `{}`) also answers 400 as missing. `base_url` is absent or a string in the model, so this case is not expressed.
- `requests.get` is called without a timeout, so a fetch can block forever. The transport is a total function in the model, so a fetch that never returns is not expressed.
- `frontend/src/App.js` is presentation and I/O only and is not part of this model.
