/**
 * What the two bounded retry loops of `fetchAndExtractData` share: up to
 * three search requests, each preceded by a pause, stopping at the first
 * page that yields company links. The network is an oracle: `pages[k]` is
 * the outcome of the k-th request.
 */
module Retry {
  import opened Wrappers
  import opened Patterns
  import opened Links
  import opened Rotation

  /** Both loops give up after this many requests. */
  const MaxAttempts := 3

  /**
   * The outcome of one search request: `None` when the request threw,
   * otherwise the `href`s of the result page's anchors.
   */
  type Page = Option<seq<Option<string>>>

  /** The search request of one attempt: the query, the browser whose `User-Agent` header is sent, and the proxy, if one was attached. */
  datatype Request = Request(query: string, userAgent: Browser, proxy: Option<string>)

  /** One attempt as the outside world sees it: a pause of `waitMs` milliseconds, then the request. */
  datatype Attempt = Attempt(waitMs: real, request: Request)

  /** The company links of a page; a failed request yields none. */
  function PageLinks(page: Page): seq<string> {
    if page.None? then [] else CompanyLinks(page.value)
  }

  /** The `try` block of one attempt: the company links of the page, or none when the request threw. */
  method TryPage(page: Page) returns (links: seq<string>)
    ensures links == PageLinks(page)
  {
    links := [];
    if page.Some? {
      links := ExtractLinkedInUrlsFromHtml(page.value);
    }
  }

  /** No page before `n` yields a link. */
  predicate NoneFoundBefore(pages: seq<Page>, n: nat)
    requires n <= |pages|
  {
    forall k :: 0 <= k < n ==> PageLinks(pages[k]) == []
  }

  /** The number of requests the loop makes: up to and including the first page with links. */
  function AttemptsUsed(pages: seq<Page>): (n: nat)
    ensures n <= |pages|
    ensures pages != [] ==> n > 0
  {
    if pages == [] then 0
    else if PageLinks(pages[0]) != [] then 1
    else 1 + AttemptsUsed(pages[1..])
  }

  /** The loop's result: the links of the first page that has any, or `[]`. */
  function FirstFound(pages: seq<Page>): seq<string> {
    if pages == [] then []
    else if PageLinks(pages[0]) != [] then PageLinks(pages[0])
    else FirstFound(pages[1..])
  }

  /** Whatever page it comes from, every link the loop returns contains the company marker. */
  lemma {:induction false} FirstFoundAreCompanyLinks(pages: seq<Page>, url: string)
    requires url in FirstFound(pages)
    ensures Contains(url, CompanyMarker)
    decreases |pages|
  {
    if PageLinks(pages[0]) == [] {
      FirstFoundAreCompanyLinks(pages[1..], url);
    } else {
      CompanyLinksMembership(pages[0].value, url);
    }
  }

  /** When the page of attempt `n` is the first with links, the loop stops there and returns them. */
  lemma {:induction false} FoundAt(pages: seq<Page>, n: nat)
    requires n < |pages| && NoneFoundBefore(pages, n) && PageLinks(pages[n]) != []
    ensures AttemptsUsed(pages) == n + 1
    ensures FirstFound(pages) == PageLinks(pages[n])
    decreases n
  {
    if n > 0 {
      assert PageLinks(pages[0]) == [];
      FoundAt(pages[1..], n - 1);
    }
  }

  /** When no page has links, every attempt is made and the result is `[]`. */
  lemma {:induction false} NoneFound(pages: seq<Page>)
    requires NoneFoundBefore(pages, |pages|)
    ensures AttemptsUsed(pages) == |pages|
    ensures FirstFound(pages) == []
    decreases |pages|
  {
    if pages != [] {
      assert PageLinks(pages[0]) == [];
      NoneFound(pages[1..]);
    }
  }

  /**
   * The result is `[]` exactly when no page has links; otherwise it is the
   * links of the last page requested, and every earlier page had none.
   */
  lemma {:induction false} FirstFoundIsLastAttempt(pages: seq<Page>)
    requires pages != []
    ensures FirstFound(pages) == [] <==> NoneFoundBefore(pages, |pages|)
    ensures NoneFoundBefore(pages, AttemptsUsed(pages) - 1)
    ensures FirstFound(pages) != [] ==> FirstFound(pages) == PageLinks(pages[AttemptsUsed(pages) - 1])
    decreases |pages|
  {
    if PageLinks(pages[0]) == [] && |pages| > 1 {
      FirstFoundIsLastAttempt(pages[1..]);
      assert forall k :: 1 <= k < |pages| ==> pages[k] == pages[1..][k - 1];
    }
  }
}
