/** The preview hook: an HTML cache keyed by item and language, a request
    step that either answers from the cache or starts a fetch, and a
    completion step for each way the fetch can end. The fetch itself, its
    URL and its cancellation are outside; a completion is delivered as a
    `FetchOutcome`. `urlParses` tells whether a site base URL is accepted by
    the URL parser the preview URL is built with.
 */
module PreviewHtml {
  import opened Base
  import opened Seqs
  import opened Text

  /** The shared cache and the hook's three outputs. */
  datatype PreviewState = PreviewState(
    cache: map<string, string>,
    html: Option<string>,
    loading: bool,
    error: Option<string>)

  /** How a fetch ended: a response with its status and body, an abort, or
      another failure carrying its message (possibly empty). */
  datatype FetchOutcome =
    | Responded(status: nat, body: string)
    | Aborted
    | Failed(message: string)

  /** A fetch the request step starts, with the cache key it will fill. */
  datatype FetchRequest = FetchRequest(key: string, siteBaseUrl: string, itemId: string, lang: string)

  datatype Step = Step(state: PreviewState, fetch: Option<FetchRequest>)

  const DefaultLang := "en"
  const KeySeparator := "|"
  const HttpErrorPrefix := "Preview HTTP "
  const FallbackError := "Failed to load preview"

  /** The cache key: item id, separator, and the language ("en" when omitted).
      The site base URL is not part of it. */
  function CacheKey(itemId: string, lang: Option<string>): string
  {
    itemId + KeySeparator + lang.GetOr(DefaultLang)
  }

  /** A response counts as successful for statuses 200 to 299. */
  predicate Ok(status: nat)
  {
    200 <= status <= 299
  }

  /** The error recorded for an unsuccessful status. */
  function HttpError(status: nat): (msg: string)
    ensures StartsWith(msg, HttpErrorPrefix)
    ensures |msg| > |HttpErrorPrefix|
  {
    HttpErrorPrefix + NatToString(status)
  }

  /** Different statuses give different messages. */
  lemma HttpErrorInjective(a: nat, b: nat)
    requires HttpError(a) == HttpError(b)
    ensures a == b
  {
    assert NatToString(a) == HttpError(a)[|HttpErrorPrefix|..];
    assert NatToString(b) == HttpError(b)[|HttpErrorPrefix|..];
    NatToStringInjective(a, b);
  }

  /** The hook reacting to (site, item, language): nothing for an empty item
      id; a cache hit shows the cached HTML (no HTML for a cached empty
      string) and starts nothing; a miss sets loading and clears the error,
      then starts a fetch for the key, unless building the preview URL throws
      on a base URL that does not parse: then no fetch starts and loading
      stays on. */
  function Request(s: PreviewState, siteBaseUrl: string, itemId: string, lang: Option<string>,
                   urlParses: string -> bool): (r: Step)
    ensures itemId == [] ==> r == Step(s, None)
    ensures itemId != [] && CacheKey(itemId, lang) in s.cache ==>
              && r.fetch.None?
              && r.state.cache == s.cache && r.state.loading == s.loading && r.state.error == s.error
              && (s.cache[CacheKey(itemId, lang)] == [] ==> r.state.html.None?)
              && (s.cache[CacheKey(itemId, lang)] != [] ==> r.state.html == Some(s.cache[CacheKey(itemId, lang)]))
    ensures itemId != [] && CacheKey(itemId, lang) !in s.cache ==>
              r.state == s.(loading := true, error := None)
    ensures itemId != [] && CacheKey(itemId, lang) !in s.cache && urlParses(siteBaseUrl) ==>
              r.fetch == Some(FetchRequest(CacheKey(itemId, lang), siteBaseUrl, itemId, lang.GetOr(DefaultLang)))
    ensures !urlParses(siteBaseUrl) ==> r.fetch.None?
  {
    var key := CacheKey(itemId, lang);
    if itemId == [] then Step(s, None)
    else if key in s.cache then
      var cached := s.cache[key];
      Step(s.(html := if cached == [] then None else Some(cached)), None)
    else if !urlParses(siteBaseUrl) then
      Step(s.(loading := true, error := None), None)
    else
      Step(s.(loading := true, error := None),
           Some(FetchRequest(key, siteBaseUrl, itemId, lang.GetOr(DefaultLang))))
  }

  /** A base URL that does not parse leaves a missed preview loading with
      nothing to end it: no fetch starts, and as long as the same request is
      repeated, loading stays on and no HTML appears. */
  lemma BadBaseUrlKeepsLoading(s: PreviewState, siteBaseUrl: string, itemId: string, lang: Option<string>,
                               urlParses: string -> bool)
    requires itemId != [] && CacheKey(itemId, lang) !in s.cache && !urlParses(siteBaseUrl)
    ensures var first := Request(s, siteBaseUrl, itemId, lang, urlParses);
            var again := Request(first.state, siteBaseUrl, itemId, lang, urlParses);
            && first.fetch.None? && again.fetch.None?
            && first.state.loading && again.state.loading
            && again.state.html == s.html && again.state.cache == s.cache
  {
  }

  /** A fetch for `key` ending: a successful response caches and shows its
      body; an unsuccessful one records the status error; an abort records
      nothing; another failure records its message, or the fallback when the
      message is empty. Loading ends in every case. */
  function Complete(s: PreviewState, key: string, outcome: FetchOutcome): (r: PreviewState)
    ensures !r.loading
    ensures outcome.Responded? && Ok(outcome.status) ==>
              r.cache == s.cache[key := outcome.body] && r.html == Some(outcome.body) && r.error == s.error
    ensures outcome.Responded? && !Ok(outcome.status) ==>
              r.cache == s.cache && r.html == s.html && r.error == Some(HttpError(outcome.status))
    ensures outcome.Aborted? ==> r == s.(loading := false)
    ensures outcome.Failed? ==>
              && r.cache == s.cache && r.html == s.html
              && r.error == Some(if outcome.message == [] then FallbackError else outcome.message)
  {
    match outcome
    case Responded(status, body) =>
      if Ok(status) then s.(cache := s.cache[key := body], html := Some(body), loading := false)
      else s.(error := Some(HttpError(status)), loading := false)
    case Aborted => s.(loading := false)
    case Failed(message) =>
      s.(error := Some(if message == [] then FallbackError else message), loading := false)
  }

  /** Whatever the outcome, a completion never records an empty error. */
  lemma CompletionErrorNonEmpty(s: PreviewState, key: string, outcome: FetchOutcome)
    requires !outcome.Aborted?
    requires outcome.Responded? ==> !Ok(outcome.status)
    ensures Complete(s, key, outcome).error.Some? && Complete(s, key, outcome).error.value != []
  {
  }

  /** Once a fetch for a key has succeeded, asking for that item and language
      again is answered from the cache, under any site base URL, with no
      new fetch. */
  lemma HitAfterSuccess(s: PreviewState, siteBaseUrl: string, otherBaseUrl: string,
                        itemId: string, lang: Option<string>, status: nat, body: string,
                        urlParses: string -> bool)
    requires itemId != []
    requires Ok(status)
    ensures var first := Request(s, siteBaseUrl, itemId, lang, urlParses);
            var done := Complete(first.state, CacheKey(itemId, lang), Responded(status, body));
            var again := Request(done, otherBaseUrl, itemId, lang, urlParses);
            again.fetch.None? && again.state.html == (if body == [] then None else Some(body))
  {
  }

  /** An event the hook sees: a (site, item, language) change or a fetch ending. */
  datatype Event =
    | Change(siteBaseUrl: string, itemId: string, lang: Option<string>)
    | Done(key: string, outcome: FetchOutcome)

  function Apply(s: PreviewState, e: Event, urlParses: string -> bool): PreviewState
  {
    match e
    case Change(siteBaseUrl, itemId, lang) => Request(s, siteBaseUrl, itemId, lang, urlParses).state
    case Done(key, outcome) => Complete(s, key, outcome)
  }

  function Run(s: PreviewState, events: seq<Event>, urlParses: string -> bool): PreviewState
    decreases |events|
  {
    if events == [] then s else Run(Apply(s, events[0], urlParses), events[1..], urlParses)
  }

  /** Nothing is ever evicted: every key cached before a run of events is
      still cached after it. */
  lemma {:induction false} CacheNeverShrinks(s: PreviewState, events: seq<Event>, urlParses: string -> bool)
    ensures s.cache.Keys <= Run(s, events, urlParses).cache.Keys
    decreases |events|
  {
    if events != [] {
      var next := Apply(s, events[0], urlParses);
      assert s.cache.Keys <= next.cache.Keys;
      CacheNeverShrinks(next, events[1..], urlParses);
    }
  }

  /** In a key whose item id has no separator, the first separator is the
      one just after the item id. */
  lemma FirstSeparatorAfterItemId(itemId: string, lang: string)
    requires forall i :: 0 <= i < |itemId| ==> itemId[i] != '|'
    ensures FindIndex(itemId + KeySeparator + lang, (c: char) => c == '|') == Some(|itemId|)
  {
    var k := itemId + KeySeparator + lang;
    assert k[|itemId|] == '|';
    assert forall j :: 0 <= j < |itemId| ==> k[j] == itemId[j];
  }

  /** For item ids without the separator, the key determines the item id and
      the effective language. */
  lemma CacheKeyInjective(a: string, la: Option<string>, b: string, lb: Option<string>)
    requires forall i :: 0 <= i < |a| ==> a[i] != '|'
    requires forall i :: 0 <= i < |b| ==> b[i] != '|'
    requires CacheKey(a, la) == CacheKey(b, lb)
    ensures a == b && la.GetOr(DefaultLang) == lb.GetOr(DefaultLang)
  {
    var k := CacheKey(a, la);
    FirstSeparatorAfterItemId(a, la.GetOr(DefaultLang));
    FirstSeparatorAfterItemId(b, lb.GetOr(DefaultLang));
    assert |a| == |b|;
    assert a == k[..|a|];
    assert b == k[..|b|];
    assert la.GetOr(DefaultLang) == k[|a| + 1..];
    assert lb.GetOr(DefaultLang) == k[|b| + 1..];
  }

  /** An item id containing the separator can share a key with another pair,
      and an omitted language shares the key of "en". */
  lemma CacheKeyCollisions()
    ensures CacheKey("a|b", Some("c")) == CacheKey("a", Some("b|c"))
    ensures CacheKey("a", None) == CacheKey("a", Some("en"))
  {
  }
}
