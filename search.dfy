/**
 * The enrichment pipeline of the sheets controller: find a company's
 * LinkedIn page by scraping a web search (three attempts, one user agent,
 * no proxy, a fixed 10 second pause), fall back to the custom search API
 * when that finds nothing, then fetch the profile page and extract its id
 * and location. The network is an oracle: the search result pages, the
 * custom search reply and the profile page are inputs.
 */
module Search {
  import opened Wrappers
  import opened Patterns
  import opened Links
  import opened Rotation
  import opened Retry
  import opened Extractor

  /** The fixed pause before every scraping attempt of the controller, in milliseconds. */
  const PauseMs := 10000.0

  /** What the search query appends to the company name. */
  const QuerySuffix := " company linkedin profile url"

  /** The search query built from a company name: the name, then the suffix. */
  function Query(companyName: string): (query: string)
    ensures |query| == |companyName| + |QuerySuffix|
    ensures query[..|companyName|] == companyName && query[|companyName|..] == QuerySuffix
  {
    companyName + QuerySuffix
  }

  /** Distinct company names are searched with distinct queries. */
  lemma QueryInjective(a: string, b: string)
    requires Query(a) == Query(b)
    ensures a == b
  {
  }

  /** `n` copies of the same attempt. */
  function Repeat(attempt: Attempt, n: nat): (attempts: seq<Attempt>)
    ensures |attempts| == n
  {
    if n == 0 then [] else Repeat(attempt, n - 1) + [attempt]
  }

  /** Every one of the repeated attempts is the given one. */
  lemma {:induction false} RepeatAt(attempt: Attempt, n: nat)
    ensures forall k :: 0 <= k < n ==> Repeat(attempt, n)[k] == attempt
    decreases n
  {
    if n > 0 {
      RepeatAt(attempt, n - 1);
    }
  }

  /**
   * `fetchAndExtractData(query)` of the controller: the user agent is drawn
   * once, before the loop; every attempt pauses 10 seconds and sends the
   * same request without a proxy. The result is the links of the first
   * page that has any, or `[]`.
   */
  method FetchAndExtractData(query: string, agentDraw: real, pages: seq<Page>)
    returns (urls: seq<string>, attempts: seq<Attempt>)
    requires IsDraw(agentDraw) && |pages| == MaxAttempts
    ensures urls == FirstFound(pages)
    ensures attempts == Repeat(Attempt(PauseMs, Request(query, RandomUserAgent(agentDraw), None)), AttemptsUsed(pages))
  {
    var userAgent := RandomUserAgent(agentDraw);
    urls, attempts := RetryRequest(Request(query, userAgent, None), pages);
  }

  /** The loop of `fetchAndExtractData`: the same request after every pause, until a page has links. */
  method RetryRequest(request: Request, pages: seq<Page>) returns (urls: seq<string>, attempts: seq<Attempt>)
    requires |pages| == MaxAttempts
    ensures urls == FirstFound(pages)
    ensures attempts == Repeat(Attempt(PauseMs, request), AttemptsUsed(pages))
  {
    var each := Attempt(PauseMs, request);
    attempts := [];
    var attempt := 0;
    while attempt < |pages|
      invariant 0 <= attempt <= |pages|
      invariant NoneFoundBefore(pages, attempt)
      invariant attempts == Repeat(each, attempt)
    {
      attempts := attempts + [each];
      var found := TryPage(pages[attempt]);
      if |found| > 0 {
        FoundAt(pages, attempt);
        return found, attempts;
      }
      attempt := attempt + 1;
    }
    NoneFound(pages);
    urls := [];
  }

  /** `list.length > 0 ? list[0] : null`. */
  function Head(links: seq<string>): Option<string> {
    if |links| > 0 then Some(links[0]) else None
  }

  /** The URL `getCompanyUrl` settles on: the head of the scraped links, or else of the custom search links. */
  function ResolvedUrl(pages: seq<Page>, reply: SearchReply): Option<string> {
    Head(if FirstFound(pages) != [] then FirstFound(pages) else CustomSearchLinks(reply))
  }

  /**
   * `getCompanyUrl(companyName)`: the custom search API is consulted
   * exactly when scraping found nothing; the result is the head of the
   * final list, or `null`. Any URL returned is a company link.
   */
  method GetCompanyUrl(companyName: string, agentDraw: real, pages: seq<Page>, reply: SearchReply)
    returns (url: Option<string>, attempts: seq<Attempt>, customSearched: bool)
    requires IsDraw(agentDraw) && |pages| == MaxAttempts
    ensures customSearched <==> FirstFound(pages) == []
    ensures url == ResolvedUrl(pages, reply)
    ensures url.None? <==> FirstFound(pages) == [] && CustomSearchLinks(reply) == []
    ensures url.Some? ==> Contains(url.value, CompanyMarker)
    ensures attempts == Repeat(Attempt(PauseMs, Request(Query(companyName), RandomUserAgent(agentDraw), None)), AttemptsUsed(pages))
  {
    var query := Query(companyName);
    var linkedinUrls;
    linkedinUrls, attempts := FetchAndExtractData(query, agentDraw, pages);
    customSearched := false;
    if |linkedinUrls| == 0 {
      customSearched := true;
      linkedinUrls := CustomSearchLinks(reply);
    }
    url := if |linkedinUrls| > 0 then Some(linkedinUrls[0]) else None;
    if url.Some? {
      if customSearched {
        CustomSearchMembership(reply, url.value);
      } else {
        FirstFoundAreCompanyLinks(pages, url.value);
      }
    }
  }

  /**
   * `getCompanyDetails(url)` after the request: `None` is a request that
   * threw, which yields the all-empty details; otherwise the page's
   * extracted details.
   */
  function GetCompanyDetails(page: Option<string>, isNumeric: string -> bool): (details: Details)
    ensures page.None? ==> details == NoDetails
    ensures page.Some? ==> details == ExtractDataFromHtml(page.value, isNumeric)
    ensures details.id == "" || IsDigits(details.id)
  {
    if page.None? then NoDetails else ExtractDataFromHtml(page.value, isNumeric)
  }

  /** The `{ id, location, url }` object `getIdAndLocation` returns. */
  datatype Enrichment = Enrichment(id: string, location: string, url: string)

  /** The request for a profile page: its URL and the browser whose `User-Agent` is sent. */
  datatype ProfileRequest = ProfileRequest(url: string, userAgent: Browser)

  /**
   * What the outside world answers during one enrichment: the draw for
   * the scraper's user agent, the scraped result pages, the custom search
   * reply, the draw for the profile request's user agent and the profile
   * page (`None` when that request throws).
   */
  datatype Upstream = Upstream(searchAgent: real, searchPages: seq<Page>, customReply: SearchReply,
                               profileAgent: real, profilePage: Option<string>)

  predicate ValidUpstream(up: Upstream) {
    IsDraw(up.searchAgent) && IsDraw(up.profileAgent) && |up.searchPages| == MaxAttempts
  }

  /**
   * `getIdAndLocation(companyName)`: without a URL, the all-empty result and
   * no profile request; with one, a single profile request for it and
   * the extracted details together with the URL. The scraping attempts and
   * whether the custom search ran are those of `getCompanyUrl`.
   */
  method GetIdAndLocation(companyName: string, up: Upstream, isNumeric: string -> bool)
    returns (result: Enrichment, profile: Option<ProfileRequest>, searchAttempts: seq<Attempt>, customSearched: bool)
    requires ValidUpstream(up)
    ensures searchAttempts == Repeat(Attempt(PauseMs, Request(Query(companyName), RandomUserAgent(up.searchAgent), None)),
                                     AttemptsUsed(up.searchPages))
    ensures customSearched <==> FirstFound(up.searchPages) == []
    ensures ResolvedUrl(up.searchPages, up.customReply).None? ==>
              result == Enrichment("", "", "") && profile.None?
    ensures ResolvedUrl(up.searchPages, up.customReply).Some? ==>
              var url := ResolvedUrl(up.searchPages, up.customReply).value;
              && result.url == url
              && profile == Some(ProfileRequest(url, RandomUserAgent(up.profileAgent)))
              && Details(result.id, result.location) == GetCompanyDetails(up.profilePage, isNumeric)
    ensures result.id == "" || IsDigits(result.id)
    ensures result.url == "" || Contains(result.url, CompanyMarker)
  {
    var url;
    url, searchAttempts, customSearched := GetCompanyUrl(companyName, up.searchAgent, up.searchPages, up.customReply);
    if url.Some? && url.value != "" {
      profile := Some(ProfileRequest(url.value, RandomUserAgent(up.profileAgent)));
      var details := GetCompanyDetails(up.profilePage, isNumeric);
      result := Enrichment(details.id, details.location, url.value);
    } else {
      if url.Some? {
        assert false;
      }
      profile := None;
      result := Enrichment("", "", "");
    }
  }
}
