/**
 * User-agent rotation, shared by the sheets controller and the standalone
 * scraper: both keep the same five browser signatures and pick one with
 * `Math.floor(Math.random() * length)`. A value of `Math.random()` is a
 * parameter, a real number in [0, 1).
 */
module Rotation {
  /** A possible value of `Math.random()`. */
  predicate IsDraw(r: real) {
    0.0 <= r < 1.0
  }

  /** `Math.floor(r * n)`: always a valid index into a non-empty list of length `n`. */
  function RandomIndex(r: real, n: nat): (k: nat)
    requires IsDraw(r) && n > 0
    ensures k < n
    ensures k as real <= r * n as real < k as real + 1.0
  {
    var m := n as real;
    var x := r * m;
    assert 0.0 <= x < m by {
      ProductSign(r, m);
      ProductSign(1.0 - r, m);
      assert m - x == (1.0 - r) * m;
    }
    x.Floor
  }

  /** The product of a non-negative and a positive number is non-negative, and positive when both are. */
  lemma ProductSign(a: real, b: real)
    requires 0.0 <= a && 0.0 < b
    ensures 0.0 <= a * b
    ensures 0.0 < a ==> 0.0 < a * b
  {
  }

  /** Every index of the list can be drawn: the draw `k / n` picks index `k`. */
  lemma RandomIndexCovers(k: nat, n: nat)
    requires k < n
    ensures IsDraw(k as real / n as real)
    ensures RandomIndex(k as real / n as real, n) == k
  {
    assert (k as real / n as real) * n as real == k as real;
  }

  /** The five browsers of the catalog; `Signature` is the `User-Agent` header each one sends. */
  datatype Browser = ChromeOnWindows | ChromeOnMac | FirefoxOnWindows | SafariOnMac | EdgeOnWindows {
    function Signature(): string {
      match this
      case ChromeOnWindows =>
        "Mozilla/5.0 (Windows NT 10.0; Win64; x64) AppleWebKit/537.36 (KHTML, like Gecko) Chrome/91.0.4472.124 Safari/537.36"
      case ChromeOnMac =>
        "Mozilla/5.0 (Macintosh; Intel Mac OS X 10_15_7) AppleWebKit/537.36 (KHTML, like Gecko) Chrome/91.0.4472.124 Safari/537.36"
      case FirefoxOnWindows =>
        "Mozilla/5.0 (Windows NT 10.0; Win64; x64) AppleWebKit/537.36 (KHTML, like Gecko) Firefox/89.0"
      case SafariOnMac =>
        "Mozilla/5.0 (Macintosh; Intel Mac OS X 10_15_7) AppleWebKit/605.1.15 (KHTML, like Gecko) Version/14.1.1 Safari/605.1.15"
      case EdgeOnWindows =>
        "Mozilla/5.0 (Windows NT 10.0; Win64; x64) AppleWebKit/537.36 (KHTML, like Gecko) Edge/91.0.864.64"
    }
  }

  /** The `userAgents` array, in its order. */
  const UserAgents: seq<Browser> := [ChromeOnWindows, ChromeOnMac, FirefoxOnWindows, SafariOnMac, EdgeOnWindows]

  /** `getRandomUserAgent()`: the browser at index `Math.floor(r * 5)` of the catalog. */
  function RandomUserAgent(r: real): (browser: Browser)
    requires IsDraw(r)
    ensures browser in UserAgents
  {
    UserAgents[RandomIndex(r, |UserAgents|)]
  }

  /**
   * The draws split [0, 1) into five equal bands, one per browser: the
   * browser at catalog position `k` is sent exactly for the draws in
   * [k/5, (k+1)/5).
   */
  lemma UserAgentBand(r: real, k: nat)
    requires IsDraw(r) && k < |UserAgents|
    ensures RandomUserAgent(r) == UserAgents[k] <==> k as real / 5.0 <= r < (k as real + 1.0) / 5.0
  {
  }

  /** Every browser of the catalog is sent for some draw. */
  lemma EveryUserAgentDrawn(browser: Browser)
    ensures exists r :: IsDraw(r) && RandomUserAgent(r) == browser
  {
    var k := match browser
      case ChromeOnWindows => 0
      case ChromeOnMac => 1
      case FirefoxOnWindows => 2
      case SafariOnMac => 3
      case EdgeOnWindows => 4;
    RandomIndexCovers(k, |UserAgents|);
    var r := k as real / |UserAgents| as real;
    assert RandomUserAgent(r) == browser;
  }
}
