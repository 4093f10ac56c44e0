/**
 * The LinkedIn company-link filter shared by both scrapers
 * (`extractLinkedInUrlsFromHtml`) and the filter applied to the replies of
 * the custom search API. The HTML parser is replaced by its outcome: the
 * `href` attributes of the page's anchors in document order, `None` for an
 * anchor without one.
 */
module Links {
  import opened Wrappers
  import opened Patterns

  /** The substring that marks a company profile link. */
  const CompanyMarker := "linkedin.com/company"

  /** `url && url.includes('linkedin.com/company')`. */
  predicate IsCompanyLink(href: Option<string>) {
    href.Some? && Contains(href.value, CompanyMarker)
  }

  /** Reference definition of the filter: the company links among `hrefs`, in document order. */
  function CompanyLinks(hrefs: seq<Option<string>>): (links: seq<string>)
    ensures |links| <= |hrefs|
  {
    if hrefs == [] then []
    else
      var last := hrefs[|hrefs| - 1];
      CompanyLinks(hrefs[..|hrefs| - 1]) + (if IsCompanyLink(last) then [last.value] else [])
  }

  /** `extractLinkedInUrlsFromHtml`: walks the anchors and pushes every company link. */
  method ExtractLinkedInUrlsFromHtml(hrefs: seq<Option<string>>) returns (links: seq<string>)
    ensures links == CompanyLinks(hrefs)
  {
    links := [];
    var i := 0;
    while i < |hrefs|
      invariant i <= |hrefs|
      invariant links == CompanyLinks(hrefs[..i])
    {
      var url := hrefs[i];
      if url.Some? && Contains(url.value, CompanyMarker) {
        links := links + [url.value];
      }
      assert hrefs[..i + 1][..i] == hrefs[..i];
      i := i + 1;
    }
    assert hrefs[..|hrefs|] == hrefs;
  }

  /** The filter distributes over concatenation, so it keeps the relative order of the links. */
  lemma {:induction false} CompanyLinksAppend(a: seq<Option<string>>, b: seq<Option<string>>)
    ensures CompanyLinks(a + b) == CompanyLinks(a) + CompanyLinks(b)
    decreases |b|
  {
    if b == [] {
      assert a + b == a;
    } else {
      var init := b[..|b| - 1];
      assert (a + b)[..|a + b| - 1] == a + init;
      CompanyLinksAppend(a, init);
    }
  }

  /** A string is kept exactly when it is the `href` of some anchor and contains the marker. */
  lemma {:induction false} CompanyLinksMembership(hrefs: seq<Option<string>>, url: string)
    ensures url in CompanyLinks(hrefs) <==> Some(url) in hrefs && Contains(url, CompanyMarker)
    decreases |hrefs|
  {
    if hrefs != [] {
      var init := hrefs[..|hrefs| - 1];
      CompanyLinksMembership(init, url);
      assert hrefs == init + [hrefs[|hrefs| - 1]];
      assert Some(url) in hrefs <==> Some(url) in init || Some(url) == hrefs[|hrefs| - 1];
    }
  }

  /** Filtering the filter's own output (as `href`s) changes nothing. */
  lemma {:induction false} CompanyLinksIdempotent(links: seq<string>)
    requires forall k :: 0 <= k < |links| ==> Contains(links[k], CompanyMarker)
    ensures CompanyLinks(seq(|links|, k requires 0 <= k < |links| => Some(links[k]))) == links
    decreases |links|
  {
    if links != [] {
      var init := links[..|links| - 1];
      var hrefs := seq(|links|, k requires 0 <= k < |links| => Some(links[k]));
      assert hrefs[..|hrefs| - 1] == seq(|init|, k requires 0 <= k < |init| => Some(init[k]));
      CompanyLinksIdempotent(init);
      assert links == init + [links[|links| - 1]];
    }
  }

  /**
   * The reply of the custom search request: the request failed, or a JSON
   * body whose `items` may be absent; each item's `link` may be absent.
   */
  datatype SearchReply = RequestFailed | Reply(items: Option<seq<Option<string>>>)

  /** Every item of the reply carries a `link`. */
  predicate AllLinked(items: seq<Option<string>>) {
    forall k :: 0 <= k < |items| ==> items[k].Some?
  }

  /**
   * `fetchAndExtractDataUsingCustomSearch` after the request: the items'
   * links that contain the marker. An item without a `link` makes
   * `includes` throw, and the catch turns that into `[]`, as it does a
   * failed request.
   */
  function CustomSearchLinks(reply: SearchReply): (links: seq<string>)
    ensures reply.RequestFailed? || (reply.Reply? && reply.items.None?) ==> links == []
    ensures reply.Reply? && reply.items.Some? && !AllLinked(reply.items.value) ==> links == []
  {
    match reply
    case RequestFailed => []
    case Reply(None) => []
    case Reply(Some(items)) => if AllLinked(items) then CompanyLinks(items) else []
  }

  /** A string is in the custom search result exactly when every item has a link, it is one of them, and it contains the marker. */
  lemma CustomSearchMembership(reply: SearchReply, url: string)
    ensures url in CustomSearchLinks(reply) <==>
              reply.Reply? && reply.items.Some? && AllLinked(reply.items.value)
              && Some(url) in reply.items.value && Contains(url, CompanyMarker)
  {
    if reply.Reply? && reply.items.Some? {
      CompanyLinksMembership(reply.items.value, url);
    }
  }
}
