/**
 * Hand-written replacements for the three regular expressions of
 * `extractDataFromHtml`. Each of them is built from pieces of the shape
 *
 *     open ( class* or class+ ) close
 *
 * where `open` and `close` are literal strings and the first character of
 * `close` is outside the capture's character class. Ghost predicates state
 * what it means for such an expression to match at a position (the regular
 * expression's own semantics, with the capture length chosen existentially)
 * and what the leftmost match is; compiled functions find the leftmost match
 * by scanning, as `RegExp.prototype.exec` does, and are proved to agree with
 * that semantics.
 */
module Patterns {
  import opened Wrappers

  /** `p` occurs in `s` starting at index `i`. */
  predicate StartsAt(s: string, i: nat, p: string) {
    i + |p| <= |s| && s[i..i + |p|] == p
  }

  /** `String.prototype.includes`: `p` occurs somewhere in `s`. */
  predicate Contains(s: string, p: string) {
    exists i: nat | i <= |s| :: StartsAt(s, i, p)
  }

  /** The two character classes the expressions use: `\d` and `[^"]`. */
  datatype CharClass = Digit | NotQuote {
    predicate Has(c: char) {
      match this
      case Digit => '0' <= c <= '9'
      case NotQuote => c != '"'
    }
  }

  /** Every character of `s` is a decimal digit, and there is at least one. */
  predicate IsDigits(s: string) {
    |s| > 0 && forall k :: 0 <= k < |s| ==> Digit.Has(s[k])
  }

  /** Length of the longest run of `cls` characters starting at `j`. */
  function Run(s: string, j: nat, cls: CharClass): (n: nat)
    requires j <= |s|
    ensures j + n <= |s|
    ensures forall k {:trigger cls.Has(s[k])} :: j <= k < j + n ==> cls.Has(s[k])
    ensures j + n < |s| ==> !cls.Has(s[j + n])
    decreases |s| - j
  {
    if j < |s| && cls.Has(s[j]) then 1 + Run(s, j + 1, cls) else 0
  }

  /** A run of `cls` characters that is followed by a character outside `cls` is the longest one. */
  lemma RunUnique(s: string, j: nat, cls: CharClass, n: nat)
    requires j + n <= |s|
    requires forall k {:trigger cls.Has(s[k])} :: j <= k < j + n ==> cls.Has(s[k])
    requires j + n < |s| ==> !cls.Has(s[j + n])
    ensures n == Run(s, j, cls)
  {
  }

  /**
   * A regular expression `open (body*) close`, or `open (body+) close` when
   * `nonEmpty` holds.
   */
  datatype Delimited = Delimited(open: string, body: CharClass, nonEmpty: bool, close: string)

  /** The closing literal cannot be swallowed by the capture, so the capture is unique. */
  predicate WellFormed(d: Delimited) {
    |d.close| > 0 && !d.body.Has(d.close[0])
  }

  /** The expression matches at `i` with a capture of `n` characters (regular-expression semantics). */
  ghost predicate MatchesWith(s: string, i: nat, d: Delimited, n: nat) {
    && StartsAt(s, i, d.open)
    && i + |d.open| + n <= |s|
    && (d.nonEmpty ==> n > 0)
    && (forall k {:trigger d.body.Has(s[k])} :: i + |d.open| <= k < i + |d.open| + n ==> d.body.Has(s[k]))
    && StartsAt(s, i + |d.open| + n, d.close)
  }

  /** The expression matches at `i` with some capture. */
  ghost predicate MatchesAt(s: string, i: nat, d: Delimited) {
    exists n: nat :: MatchesWith(s, i, d, n)
  }

  /** The expression matches somewhere in `s` (`exec` does not return `null`). */
  ghost predicate Matches(s: string, d: Delimited) {
    exists i: nat :: i <= |s| && MatchesAt(s, i, d)
  }

  /** No match of the expression starts at a position in `[from, to)`. */
  ghost predicate NoMatchBetween(s: string, d: Delimited, from: nat, to: nat) {
    forall k: nat :: from <= k < to ==> !MatchesAt(s, k, d)
  }

  /** No match of the expression starts before `i`. */
  ghost predicate NoMatchBefore(s: string, d: Delimited, i: nat) {
    NoMatchBetween(s, d, 0, i)
  }

  /** A match at `i` captures exactly the characters `text`. */
  ghost predicate CaptureAt(s: string, i: nat, d: Delimited, text: string) {
    exists n: nat :: MatchesWith(s, i, d, n) && text == s[i + |d.open|..i + |d.open| + n]
  }

  /** The match at `i` with an `n`-character capture is the leftmost match (the one `exec` reports). */
  ghost predicate IsLeftmost(s: string, d: Delimited, i: nat, n: nat) {
    i <= |s| && MatchesWith(s, i, d, n) && NoMatchBefore(s, d, i)
  }

  /** Any match at `i` captures the longest `body` run after `open`. */
  lemma CaptureIsRun(s: string, i: nat, d: Delimited)
    requires WellFormed(d)
    ensures forall n: nat :: MatchesWith(s, i, d, n) ==> n == Run(s, i + |d.open|, d.body)
  {
    forall n: nat | MatchesWith(s, i, d, n)
      ensures n == Run(s, i + |d.open|, d.body)
    {
      var j := i + |d.open|;
      if j + n < |s| {
        assert s[j + n] == s[j + n..j + n + |d.close|][0] == d.close[0];
      }
      RunUnique(s, j, d.body, n);
    }
  }

  /** Tries the expression at position `i` only; the result is the capture length. */
  function MatchAt(s: string, i: nat, d: Delimited): (r: Option<nat>)
    requires WellFormed(d)
    ensures r.Some? ==> MatchesWith(s, i, d, r.value)
    ensures r.None? <==> !MatchesAt(s, i, d)
  {
    CaptureIsRun(s, i, d);
    if !StartsAt(s, i, d.open) then None
    else
      var n := Run(s, i + |d.open|, d.body);
      if (d.nonEmpty && n == 0) || !StartsAt(s, i + |d.open| + n, d.close) then None
      else assert MatchesWith(s, i, d, n); Some(n)
  }

  /** Where a match starts and how long its capture is. */
  datatype Capture = Capture(start: nat, len: nat)

  /** `RegExp.prototype.exec` from position `from`: the leftmost match at or after `from`. */
  function Leftmost(s: string, d: Delimited, from: nat): (r: Option<Capture>)
    requires WellFormed(d)
    ensures r.Some? ==> from <= r.value.start <= |s| && MatchesWith(s, r.value.start, d, r.value.len)
    ensures r.Some? ==> NoMatchBetween(s, d, from, r.value.start)
    ensures r.None? ==> NoMatchBetween(s, d, from, |s| + 1)
    decreases |s| + 1 - from, 1
  {
    if from > |s| then None else ScanStep(s, d, from)
  }

  /** One step of the scan: the match at `from` if there is one, else the scan goes on from `from + 1`. */
  function ScanStep(s: string, d: Delimited, from: nat): (r: Option<Capture>)
    requires WellFormed(d) && from <= |s|
    ensures r.Some? ==> from <= r.value.start <= |s| && MatchesWith(s, r.value.start, d, r.value.len)
    ensures r.Some? ==> NoMatchBetween(s, d, from, r.value.start)
    ensures r.None? ==> NoMatchBetween(s, d, from, |s| + 1)
    decreases |s| + 1 - from, 0
  {
    match MatchAt(s, from, d)
    case Some(n) => Some(Capture(from, n))
    case None => Leftmost(s, d, from + 1)
  }

  /** `p` is the middle part of `a + p + b`. */
  lemma ConcatParts(a: string, p: string, b: string)
    ensures StartsAt(a + p + b, |a|, p)
    ensures forall k :: 0 <= k < |p| ==> (a + p + b)[|a| + k] == p[k]
  {
    assert (a + p + b)[|a|..|a| + |p|] == p;
  }

  /** The text `pre + open + text + close + post` matches at `|pre|`, capturing `text`. */
  lemma DelimitedMatch(pre: string, d: Delimited, text: string, post: string)
    requires forall k :: 0 <= k < |text| ==> d.body.Has(text[k])
    requires d.nonEmpty ==> |text| > 0
    ensures MatchesWith(pre + d.open + text + d.close + post, |pre|, d, |text|)
    ensures text == (pre + d.open + text + d.close + post)[|pre| + |d.open|..|pre| + |d.open| + |text|]
  {
    var s := pre + d.open + text + d.close + post;
    assert s == pre + d.open + (text + d.close + post);
    ConcatParts(pre, d.open, text + d.close + post);
    assert s == (pre + d.open) + text + (d.close + post);
    ConcatParts(pre + d.open, text, d.close + post);
    assert s == (pre + d.open + text) + d.close + post;
    ConcatParts(pre + d.open + text, d.close, post);
  }

  /** Two leftmost matches are the same match. */
  lemma LeftmostMatchesAgree(s: string, d: Delimited, i: nat, n: nat, j: nat, m: nat)
    requires WellFormed(d)
    requires IsLeftmost(s, d, i, n) && IsLeftmost(s, d, j, m)
    ensures i == j && n == m
  {
    assert MatchesAt(s, i, d) && MatchesAt(s, j, d);
    assert i == j;
    CaptureIsRun(s, i, d);
  }

  /** Once one leftmost match is known, every leftmost match is that one. */
  lemma LeftmostUnique(s: string, d: Delimited, i0: nat, n0: nat)
    requires WellFormed(d)
    requires IsLeftmost(s, d, i0, n0)
    ensures forall i: nat, n: nat :: IsLeftmost(s, d, i, n) ==> i == i0 && n == n0
  {
    forall i: nat, n: nat | IsLeftmost(s, d, i, n)
      ensures i == i0 && n == n0
    {
      LeftmostMatchesAgree(s, d, i, n, i0, n0);
    }
  }

  /** Whenever the expression matches somewhere, it has a leftmost match. */
  lemma LeftmostExists(s: string, d: Delimited) returns (i: nat, n: nat)
    requires WellFormed(d)
    requires Matches(s, d)
    ensures IsLeftmost(s, d, i, n)
  {
    var c := Leftmost(s, d, 0);
    i, n := c.value.start, c.value.len;
  }

  /**
   * `exec(s)` followed by reading group 1: `None` exactly when the expression
   * matches nowhere, otherwise the capture of the leftmost match.
   */
  function Exec(s: string, d: Delimited): (r: Option<string>)
    requires WellFormed(d)
    ensures r.None? <==> !Matches(s, d)
    ensures forall i: nat, n: nat :: IsLeftmost(s, d, i, n) ==> r == Some(s[i + |d.open|..i + |d.open| + n])
  {
    match Leftmost(s, d, 0)
    case None =>
      assert forall i: nat, n: nat :: IsLeftmost(s, d, i, n) ==> MatchesAt(s, i, d);
      None
    case Some(c) =>
      assert MatchesAt(s, c.start, d);
      LeftmostUnique(s, d, c.start, c.len);
      Some(s[c.start + |d.open|..c.start + |d.open| + c.len])
  }

  /** A capture `exec` reports is drawn from the capture's character class, and is non-empty for `class+`. */
  lemma ExecCaptureInClass(s: string, d: Delimited)
    requires WellFormed(d)
    requires Exec(s, d).Some?
    ensures d.nonEmpty ==> |Exec(s, d).value| > 0
    ensures forall k :: 0 <= k < |Exec(s, d).value| ==> d.body.Has(Exec(s, d).value[k])
  {
    var i, n := LeftmostExists(s, d);
  }

  /** `exec` on a text that starts with a match reports that match's capture, whatever follows. */
  lemma ExecAtHead(d: Delimited, text: string, rest: string)
    requires WellFormed(d)
    requires forall k :: 0 <= k < |text| ==> d.body.Has(text[k])
    requires d.nonEmpty ==> |text| > 0
    ensures Exec(d.open + text + d.close + rest, d) == Some(text)
  {
    HeadMatch(d, text, rest);
    assert IsLeftmost(d.open + text + d.close + rest, d, 0, |text|);
  }

  /** The text `open + text + close + post` matches at 0, capturing `text`. */
  lemma HeadMatch(d: Delimited, text: string, post: string)
    requires forall k :: 0 <= k < |text| ==> d.body.Has(text[k])
    requires d.nonEmpty ==> |text| > 0
    ensures MatchesWith(d.open + text + d.close + post, 0, d, |text|)
    ensures (d.open + text + d.close + post)[|d.open|..|d.open| + |text|] == text
  {
    var s := d.open + text + d.close + post;
    assert s[..|d.open|] == d.open;
    assert s[|d.open|..|d.open| + |text|] == text;
    assert s[|d.open| + |text|..|d.open| + |text| + |d.close|] == d.close;
  }

  /** A match needs its opening literal, so a text without it matches nowhere. */
  lemma MatchNeedsOpen(s: string, d: Delimited)
    requires Matches(s, d)
    ensures Contains(s, d.open)
  {
    var i: nat :| i <= |s| && MatchesAt(s, i, d);
    assert StartsAt(s, i, d.open);
  }

  /** A match at a given position captures one text only. */
  lemma CaptureAtUnique(s: string, i: nat, d: Delimited, a: string, b: string)
    requires WellFormed(d)
    requires CaptureAt(s, i, d, a) && CaptureAt(s, i, d, b)
    ensures a == b
  {
    CaptureIsRun(s, i, d);
  }

  /** The greedy optional group `(?:second)?` at position `e`: its capture, or `None` when it does not match there. */
  ghost predicate OptionalGroupAt(s: string, e: nat, second: Delimited, group: Option<string>) {
    if group.Some? then CaptureAt(s, e, second, group.value) else !MatchesAt(s, e, second)
  }

  /** The greedy optional group has one outcome at a given position. */
  lemma OptionalGroupUnique(s: string, e: nat, second: Delimited, g1: Option<string>, g2: Option<string>)
    requires WellFormed(second)
    requires OptionalGroupAt(s, e, second, g1) && OptionalGroupAt(s, e, second, g2)
    ensures g1 == g2
  {
    if g1.Some? && g2.Some? {
      CaptureAtUnique(s, e, second, g1.value, g2.value);
    }
  }

  /** The greedy optional group: its capture when it matches at `e`, else `None`. */
  function ExecGroupAt(s: string, e: nat, second: Delimited): (r: Option<string>)
    requires WellFormed(second)
    ensures forall g :: OptionalGroupAt(s, e, second, g) <==> g == r
  {
    var r :=
      match MatchAt(s, e, second)
      case None => None
      case Some(m) =>
        assert CaptureAt(s, e, second, s[e + |second.open|..e + |second.open| + m]);
        Some(s[e + |second.open|..e + |second.open| + m]);
    assert OptionalGroupAt(s, e, second, r);
    forall g | OptionalGroupAt(s, e, second, g)
      ensures g == r
    {
      OptionalGroupUnique(s, e, second, g, r);
    }
    r
  }

  /** Where the optional group after a match of `first` at `i` with capture length `n` starts. */
  function After(first: Delimited, i: nat, n: nat): nat {
    i + |first.open| + n + |first.close|
  }

  /**
   * `exec` of the expression `first (?:second)?` followed by reading groups 1
   * and 2: `None` exactly when `first` matches nowhere; otherwise the capture
   * of the leftmost match of `first` and the outcome of the optional group
   * right after it.
   */
  function ExecOptionalPair(s: string, first: Delimited, second: Delimited): (r: Option<(string, Option<string>)>)
    requires WellFormed(first) && WellFormed(second)
    ensures r.None? <==> !Matches(s, first)
    ensures forall i: nat, n: nat, g :: IsLeftmost(s, first, i, n) && OptionalGroupAt(s, After(first, i, n), second, g) ==>
              r == Some((s[i + |first.open|..i + |first.open| + n], g))
  {
    match Leftmost(s, first, 0)
    case None =>
      assert forall i: nat, n: nat :: IsLeftmost(s, first, i, n) ==> MatchesAt(s, i, first);
      None
    case Some(c) =>
      var group := ExecGroupAt(s, After(first, c.start, c.len), second);
      PairFromLeftmost(s, first, second, c.start, c.len, group);
      Some((s[c.start + |first.open|..c.start + |first.open| + c.len], group))
  }

  /** With the leftmost match of `first` and the group after it known, every reading of the pair is that one. */
  lemma PairFromLeftmost(s: string, first: Delimited, second: Delimited, i0: nat, n0: nat, group: Option<string>)
    requires WellFormed(first) && WellFormed(second)
    requires i0 <= |s| && MatchesWith(s, i0, first, n0) && NoMatchBetween(s, first, 0, i0)
    requires forall g :: OptionalGroupAt(s, After(first, i0, n0), second, g) <==> g == group
    ensures Matches(s, first)
    ensures forall i: nat, n: nat, g :: IsLeftmost(s, first, i, n) && OptionalGroupAt(s, After(first, i, n), second, g) ==>
              (s[i + |first.open|..i + |first.open| + n], g) == (s[i0 + |first.open|..i0 + |first.open| + n0], group)
  {
    assert MatchesAt(s, i0, first);
    LeftmostUnique(s, first, i0, n0);
  }

  /**
   * `exec` of `first (?:second)?` on a text that starts with a match of
   * `first` immediately followed by a match of `second` reports both captures.
   */
  lemma ExecOptionalPairAtHead(first: Delimited, second: Delimited, a: string, b: string, rest: string)
    requires WellFormed(first) && WellFormed(second)
    requires forall k :: 0 <= k < |a| ==> first.body.Has(a[k])
    requires forall k :: 0 <= k < |b| ==> second.body.Has(b[k])
    requires first.nonEmpty ==> |a| > 0
    requires second.nonEmpty ==> |b| > 0
    ensures ExecOptionalPair(first.open + a + first.close + second.open + b + second.close + rest, first, second)
            == Some((a, Some(b)))
  {
    var s := first.open + a + first.close + second.open + b + second.close + rest;
    PairAtHead(first, second, a, b, rest);
    PairFromFacts(s, first, second, a, b);
  }

  /** A known leftmost match of `first` capturing `a`, followed by the group capturing `b`, is what `exec` reports. */
  lemma PairFromFacts(s: string, first: Delimited, second: Delimited, a: string, b: string)
    requires WellFormed(first) && WellFormed(second)
    requires IsLeftmost(s, first, 0, |a|) && s[|first.open|..|first.open| + |a|] == a
    requires OptionalGroupAt(s, After(first, 0, |a|), second, Some(b))
    ensures ExecOptionalPair(s, first, second) == Some((a, Some(b)))
  {
  }

  /** The ghost half of `ExecOptionalPairAtHead`: where the two matches are. */
  lemma PairAtHead(first: Delimited, second: Delimited, a: string, b: string, rest: string)
    requires forall k :: 0 <= k < |a| ==> first.body.Has(a[k])
    requires forall k :: 0 <= k < |b| ==> second.body.Has(b[k])
    requires first.nonEmpty ==> |a| > 0
    requires second.nonEmpty ==> |b| > 0
    ensures var s := first.open + a + first.close + second.open + b + second.close + rest;
            && IsLeftmost(s, first, 0, |a|)
            && s[|first.open|..|first.open| + |a|] == a
            && OptionalGroupAt(s, After(first, 0, |a|), second, Some(b))
  {
    var head := first.open + a + first.close;
    Regroup(head, second.open + b + second.close, rest);
    HeadMatch(first, a, second.open + b + second.close + rest);
    GroupAfter(head, second, b, rest);
  }

  /** The optional group matches right after `head` and captures `b`. */
  lemma GroupAfter(head: string, second: Delimited, b: string, rest: string)
    requires forall k :: 0 <= k < |b| ==> second.body.Has(b[k])
    requires second.nonEmpty ==> |b| > 0
    ensures OptionalGroupAt(head + second.open + b + second.close + rest, |head|, second, Some(b))
  {
    DelimitedMatch(head, second, b, rest);
  }

  /** `head + middle + rest` read with `head` split off. */
  lemma Regroup(head: string, middle: string, rest: string)
    ensures head + middle + rest == head + (middle + rest)
  {
  }
}
