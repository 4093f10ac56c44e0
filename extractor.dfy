/**
 * `extractDataFromHtml` of the sheets controller: recovers a numeric company
 * id and a "locality, region" location from the raw HTML of a company
 * profile page. `isNumeric` is kept abstract: it is a parameter of type
 * `string -> bool`, because its floating-point coercion is not modelled.
 *
 * The two halves of the extractor are stated over any expressions of the
 * right shape (`IdFrom`, `LocationFrom`); `ExtractDataFromHtml` applies them
 * to the source's own three regular expressions.
 */
module Extractor {
  import opened Wrappers
  import opened Patterns

  /** `/data-semaphore-content-urn="urn:li:organization:(\d+)"/` */
  const OrganizationUrn := Delimited("data-semaphore-content-urn=\"urn:li:organization:", Digit, true, "\"")
  /** `/currentCompany=%5B%22(\d+)%22%5D/` */
  const CurrentCompany := Delimited("currentCompany=%5B%22", Digit, true, "%22%5D")
  /** `"addressLocality":"([^"]*)"`, the mandatory part of the location expression. */
  const Locality := Delimited("\"addressLocality\":\"", NotQuote, false, "\"")
  /** `,"addressRegion":"([^"]*)"`, the optional group `(?:...)?` that may follow it. */
  const Region := Delimited(",\"addressRegion\":\"", NotQuote, false, "\"")

  /** The `{ id, location }` object the extractor returns. */
  datatype Details = Details(id: string, location: string)

  /** The all-empty result of every error path. */
  const NoDetails := Details("", "")

  /** An id expression: `open(\d+)close` with a closing literal that cannot start with a digit. */
  predicate IdExpression(d: Delimited) {
    WellFormed(d) && d.body == Digit && d.nonEmpty
  }

  /** A location expression: `open([^"]*)close`, twice, each closing literal starting with `"`. */
  predicate LocationExpressions(first: Delimited, second: Delimited) {
    && WellFormed(first) && WellFormed(second)
    && first.body == NotQuote && second.body == NotQuote
    && !first.nonEmpty && !second.nonEmpty
  }

  /** The source's expressions have the shapes the two halves rely on. */
  lemma ExpressionsWellFormed()
    ensures IdExpression(OrganizationUrn) && IdExpression(CurrentCompany)
    ensures LocationExpressions(Locality, Region)
  {
  }

  /** A captured part survives the `isNumeric` sanity filter, or becomes `''`. */
  function Kept(part: string, isNumeric: string -> bool): string {
    if isNumeric(part) then "" else part
  }

  /** Group 2 read as the source reads it: an absent group is `''`. */
  function GroupText(group: Option<string>): string {
    if group.Some? then group.value else ""
  }

  /** The composition rule: both parts joined by ", ", the single non-empty part, or `''`. */
  function JoinLocation(locality: string, region: string): (location: string)
    ensures location == "" <==> locality == "" && region == ""
    ensures locality == "" ==> location == region
    ensures region == "" ==> location == locality
    ensures locality != "" && region != "" ==> location == locality + ", " + region
  {
    if locality != "" && region != "" then locality + ", " + region
    else if locality != "" then locality
    else if region != "" then region
    else ""
  }

  /**
   * The id half of `extractDataFromHtml`: the capture of the leftmost match
   * of `primary`, or failing that of the leftmost match of `fallback`, or `''`.
   */
  function IdFrom(html: string, primary: Delimited, fallback: Delimited): (id: string)
    requires IdExpression(primary) && IdExpression(fallback)
    ensures forall i: nat, n: nat :: IsLeftmost(html, primary, i, n) ==>
              id == html[i + |primary.open|..i + |primary.open| + n]
    ensures !Matches(html, primary) ==>
              forall i: nat, n: nat :: IsLeftmost(html, fallback, i, n) ==>
                id == html[i + |fallback.open|..i + |fallback.open| + n]
    ensures !Matches(html, primary) && !Matches(html, fallback) ==> id == ""
    ensures id == "" || IsDigits(id)
  {
    var first := Exec(html, primary);
    var second := Exec(html, fallback);
    if first.Some? then
      ExecCaptureInClass(html, primary);
      first.value
    else if second.Some? then
      ExecCaptureInClass(html, fallback);
      second.value
    else ""
  }

  /**
   * The location half of `extractDataFromHtml`: built from the leftmost match
   * of `first` and the optional group `second` right after it, each part
   * dropped when numeric.
   */
  function LocationFrom(html: string, first: Delimited, second: Delimited, isNumeric: string -> bool): (location: string)
    requires WellFormed(first) && WellFormed(second)
    ensures !Matches(html, first) ==> location == ""
    ensures forall i: nat, n: nat, region: Option<string>
              {:trigger IsLeftmost(html, first, i, n), OptionalGroupAt(html, After(first, i, n), second, region)} ::
              IsLeftmost(html, first, i, n) && OptionalGroupAt(html, After(first, i, n), second, region) ==>
              location == JoinLocation(Kept(html[i + |first.open|..i + |first.open| + n], isNumeric),
                                       Kept(GroupText(region), isNumeric))
  {
    var groups := ExecOptionalPair(html, first, second);
    var locality := if groups.Some? then groups.value.0 else "";
    var region := if groups.Some? then GroupText(groups.value.1) else "";
    JoinLocation(Kept(locality, isNumeric), Kept(region, isNumeric))
  }

  /**
   * `extractDataFromHtml(html)`. It never fails: every string has a result.
   * The id is the organization URN's digits, else the `currentCompany`
   * parameter's digits, else `''`; the location comes from the address
   * expression alone.
   */
  function ExtractDataFromHtml(html: string, isNumeric: string -> bool): (details: Details)
    ensures details.id == "" || IsDigits(details.id)
    ensures forall i: nat, n: nat :: IsLeftmost(html, OrganizationUrn, i, n) ==>
              details.id == html[i + |OrganizationUrn.open|..i + |OrganizationUrn.open| + n]
    ensures !Matches(html, OrganizationUrn) ==>
              forall i: nat, n: nat :: IsLeftmost(html, CurrentCompany, i, n) ==>
                details.id == html[i + |CurrentCompany.open|..i + |CurrentCompany.open| + n]
    ensures !Matches(html, OrganizationUrn) && !Matches(html, CurrentCompany) ==> details.id == ""
    ensures !Matches(html, Locality) ==> details.location == ""
  {
    ExpressionsWellFormed();
    Details(IdFrom(html, OrganizationUrn, CurrentCompany), LocationFrom(html, Locality, Region, isNumeric))
  }

  /** A part the filter judges numeric never reaches the location: only the other part can. */
  lemma NumericPartDropped(locality: string, region: string, isNumeric: string -> bool)
    ensures isNumeric(locality) ==> JoinLocation(Kept(locality, isNumeric), Kept(region, isNumeric)) == Kept(region, isNumeric)
    ensures isNumeric(region) ==> JoinLocation(Kept(locality, isNumeric), Kept(region, isNumeric)) == Kept(locality, isNumeric)
  {
  }

  /** A page carrying none of the opening literals yields the all-empty details. */
  lemma UnmarkedPageIsEmpty(html: string, primary: Delimited, fallback: Delimited,
                            first: Delimited, second: Delimited, isNumeric: string -> bool)
    requires IdExpression(primary) && IdExpression(fallback) && WellFormed(first) && WellFormed(second)
    requires !Contains(html, primary.open) && !Contains(html, fallback.open) && !Contains(html, first.open)
    ensures IdFrom(html, primary, fallback) == "" && LocationFrom(html, first, second, isNumeric) == ""
  {
    if Matches(html, primary) {
      MatchNeedsOpen(html, primary);
    }
    if Matches(html, fallback) {
      MatchNeedsOpen(html, fallback);
    }
    if Matches(html, first) {
      MatchNeedsOpen(html, first);
    }
  }

  /** The digits of a `primary` match at the head of a page are its id, whatever follows. */
  lemma PrimaryIdRoundTrip(primary: Delimited, fallback: Delimited, digits: string, rest: string)
    requires IdExpression(primary) && IdExpression(fallback)
    requires IsDigits(digits)
    ensures IdFrom(primary.open + digits + primary.close + rest, primary, fallback) == digits
  {
    ExecAtHead(primary, digits, rest);
  }

  /** Without a `primary` opening literal, the digits of a `fallback` match at the head of a page are its id. */
  lemma FallbackIdRoundTrip(primary: Delimited, fallback: Delimited, digits: string, rest: string)
    requires IdExpression(primary) && IdExpression(fallback)
    requires IsDigits(digits)
    requires !Contains(fallback.open + digits + fallback.close + rest, primary.open)
    ensures IdFrom(fallback.open + digits + fallback.close + rest, primary, fallback) == digits
  {
    var page := fallback.open + digits + fallback.close + rest;
    if Matches(page, primary) {
      MatchNeedsOpen(page, primary);
    }
    ExecAtHead(fallback, digits, rest);
  }

  /** The structured-data fragment a profile page carries for an address. */
  function AddressFragment(first: Delimited, second: Delimited, locality: string, region: string): string {
    first.open + locality + first.close + second.open + region + second.close
  }

  /**
   * Round trip of the location: a page that starts with an address fragment
   * yields the fragment's locality and region, filtered and joined, whatever
   * follows.
   */
  lemma AddressRoundTrip(first: Delimited, second: Delimited, locality: string, region: string, rest: string,
                         isNumeric: string -> bool)
    requires LocationExpressions(first, second)
    requires forall k :: 0 <= k < |locality| ==> locality[k] != '"'
    requires forall k :: 0 <= k < |region| ==> region[k] != '"'
    ensures LocationFrom(AddressFragment(first, second, locality, region) + rest, first, second, isNumeric)
            == JoinLocation(Kept(locality, isNumeric), Kept(region, isNumeric))
  {
    ExecOptionalPairAtHead(first, second, locality, region, rest);
  }

  /** Locality "New York" with the numeric region "94105" gives the location "New York". */
  lemma NewYorkExample(isNumeric: string -> bool)
    requires !isNumeric("New York") && isNumeric("94105")
    ensures ExtractDataFromHtml(AddressFragment(Locality, Region, "New York", "94105"), isNumeric).location == "New York"
  {
    var page := AddressFragment(Locality, Region, "New York", "94105");
    ExpressionsWellFormed();
    AddressRoundTrip(Locality, Region, "New York", "94105", "", isNumeric);
    assert page + "" == page;
  }
}
