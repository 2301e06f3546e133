/** The buyer's decision parser. The buyer's reply is searched, case
    insensitively, first for an accepting sentinel and only then for a
    rejecting one:

      ACCEPT:  DECISION: \s* ACCEPT \s* $ <digits>[.<digits>] \s* - \s* (<rest of line>)
      REJECT:  DECISION: \s* REJECT \s* - \s* (<rest of line>)

    The matcher below is the result a backtracking regular-expression engine
    produces for these two expressions: the leftmost start position wins, every
    `\s*` and digit run is as long as possible, and only the last `\s*(.+)` can
    give characters back (so that the reasoning has at least one character). */
module DecisionParser {
  import opened Common
  import opened Types

  datatype Pattern = AcceptPattern | RejectPattern

  /** What a match captures: the integer and fraction digits of the price
      (both empty for REJECT) and the reasoning text. */
  datatype Captures = Captures(whole: string, fraction: string, reasoning: string)

  // ---------------------------------------------------------------------
  // Scanning primitives

  /** End of the longest run of whitespace starting at `i`. */
  function SkipWhitespace(s: string, i: nat): (j: nat)
    requires i <= |s|
    ensures i <= j <= |s|
    ensures forall k :: i <= k < j ==> IsJsWhitespace(s[k])
    ensures j == |s| || !IsJsWhitespace(s[j])
    decreases |s| - i
  {
    if i < |s| && IsJsWhitespace(s[i]) then SkipWhitespace(s, i + 1) else i
  }

  /** End of the longest run of decimal digits starting at `i`. */
  function SkipDigits(s: string, i: nat): (j: nat)
    requires i <= |s|
    ensures i <= j <= |s|
    ensures forall k :: i <= k < j ==> IsDigit(s[k])
    ensures j == |s| || !IsDigit(s[j])
    decreases |s| - i
  {
    if i < |s| && IsDigit(s[i]) then SkipDigits(s, i + 1) else i
  }

  /** The first line terminator at or after `i`, or the end of the text. */
  function LineEnd(s: string, i: nat): (j: nat)
    requires i <= |s|
    ensures i <= j <= |s|
    ensures forall k :: i <= k < j ==> !IsLineTerminator(s[k])
    ensures j == |s| || IsLineTerminator(s[j])
    decreases |s| - i
  {
    if i < |s| && !IsLineTerminator(s[i]) then LineEnd(s, i + 1) else i
  }

  /** `kw` (upper-case ASCII) occurs at `i`, ignoring ASCII case. */
  predicate KeywordAt(s: string, i: nat, kw: string) {
    i + |kw| <= |s| && forall k :: 0 <= k < |kw| ==> AsciiUpper(s[i + k]) == kw[k]
  }

  /** Where `.+` starts after backtracking a greedy `\s*` that ran from `lo`
      to `e`: the last position in `lo..e` holding a character other than a
      line terminator. */
  function BacktrackStart(s: string, lo: nat, e: nat): (r: Option<nat>)
    requires lo <= e <= |s|
    ensures r.Some? ==> lo <= r.value <= e && r.value < |s| && !IsLineTerminator(s[r.value])
    ensures r.Some? ==> forall k :: r.value < k <= e && k < |s| ==> IsLineTerminator(s[k])
    ensures r.None? ==> forall k :: lo <= k <= e && k < |s| ==> IsLineTerminator(s[k])
    decreases e
  {
    if e < |s| && !IsLineTerminator(s[e]) then Some(e)
    else if e == lo then None
    else BacktrackStart(s, lo, e - 1)
  }

  /** A captured reasoning: non-empty and within one line. */
  predicate OneLine(t: string) {
    |t| > 0 && forall k :: 0 <= k < |t| ==> !IsLineTerminator(t[k])
  }

  /** A run of decimal digits. */
  predicate AllDigits(t: string) {
    forall k :: 0 <= k < |t| ==> IsDigit(t[k])
  }

  /** `\s*(.+)` from `m`: the reasoning, a non-empty piece of one line. */
  function ReasoningFrom(s: string, m: nat): (r: Option<string>)
    requires m <= |s|
    ensures r.Some? ==> OneLine(r.value)
  {
    var e := SkipWhitespace(s, m);
    match BacktrackStart(s, m, e)
    case None => None
    case Some(st) => Some(s[st..LineEnd(s, st)])
  }

  // ---------------------------------------------------------------------
  // Matching

  /** The rest of the ACCEPT expression from `a`, just after `DECISION:\s*`:
      `ACCEPT\s*` and then the price and the reasoning. */
  function AcceptFrom(s: string, a: nat): (r: Option<Captures>)
    requires a <= |s|
    ensures r.Some? ==> |r.value.whole| > 0 && AllDigits(r.value.whole) && AllDigits(r.value.fraction)
    ensures r.Some? ==> OneLine(r.value.reasoning)
  {
    if !KeywordAt(s, a, "ACCEPT") then None
    else
      var b := SkipWhitespace(s, a + 6);
      if !(b < |s| && s[b] == '$') then None
      else PriceFrom(s, b + 1)
  }

  /** Where the optional `.digits` after the integer digits ending at `d` ends. */
  function FractionEnd(s: string, d: nat): (e: nat)
    requires d <= |s|
    ensures d <= e <= |s|
  {
    if d + 1 < |s| && s[d] == '.' && IsDigit(s[d + 1]) then SkipDigits(s, d + 1) else d
  }

  /** From `c`, just after the `$`: `(\d+(?:\.\d+)?)\s*-\s*(.+)`. */
  function PriceFrom(s: string, c: nat): (r: Option<Captures>)
    requires c <= |s|
    ensures r.Some? ==> |r.value.whole| > 0 && AllDigits(r.value.whole) && AllDigits(r.value.fraction)
    ensures r.Some? ==> OneLine(r.value.reasoning)
  {
    var d := SkipDigits(s, c);
    if d == c then None
    else
      var e := FractionEnd(s, d);
      var f := SkipWhitespace(s, e);
      if !(f < |s| && s[f] == '-') then None
      else
        match ReasoningFrom(s, f + 1)
        case None => None
        case Some(why) => Some(Captures(s[c..d], if e == d then "" else s[d + 1..e], why))
  }

  /** The rest of the REJECT expression from `a`, just after `DECISION:\s*`:
      `REJECT\s*-\s*(.+)`. */
  function RejectFrom(s: string, a: nat): (r: Option<Captures>)
    requires a <= |s|
    ensures r.Some? ==> r.value.whole == "" && r.value.fraction == "" && OneLine(r.value.reasoning)
  {
    if !KeywordAt(s, a, "REJECT") then None
    else
      var f := SkipWhitespace(s, a + 6);
      if !(f < |s| && s[f] == '-') then None
      else
        match ReasoningFrom(s, f + 1)
        case None => None
        case Some(why) => Some(Captures("", "", why))
  }

  /** The match of `p` starting exactly at `i`, if any. */
  function MatchAt(p: Pattern, s: string, i: nat): (r: Option<Captures>)
    requires i <= |s|
    ensures r.Some? ==> KeywordAt(s, i, "DECISION:")
    ensures r.Some? ==> OneLine(r.value.reasoning) && AllDigits(r.value.whole) && AllDigits(r.value.fraction)
    ensures r.Some? && p == AcceptPattern ==> |r.value.whole| > 0
  {
    if !KeywordAt(s, i, "DECISION:") then None
    else
      var a := SkipWhitespace(s, i + 9);
      match p
      case AcceptPattern => AcceptFrom(s, a)
      case RejectPattern => RejectFrom(s, a)
  }

  /** The first index at or after `i` where `hits` holds. */
  function FirstHit(hits: seq<bool>, i: nat): (r: Option<nat>)
    requires i <= |hits|
    ensures r.Some? ==> i <= r.value < |hits| && hits[r.value]
    ensures r.Some? ==> forall k :: i <= k < r.value ==> !hits[k]
    ensures r.None? ==> forall k :: i <= k < |hits| ==> !hits[k]
    decreases |hits| - i
  {
    if i == |hits| then None
    else if hits[i] then Some(i)
    else FirstHit(hits, i + 1)
  }

  /** For each position 0 to `|s|`, whether `p` matches there. */
  function Hits(p: Pattern, s: string): (h: seq<bool>)
    ensures |h| == |s| + 1
    ensures forall k :: 0 <= k <= |s| ==> h[k] == MatchAt(p, s, k).Some?
  {
    seq(|s| + 1, k requires 0 <= k <= |s| => MatchAt(p, s, k).Some?)
  }

  /** The leftmost position where `p` matches: no earlier position
      matches, and there is none only when no position matches. */
  function Search(p: Pattern, s: string): (r: Option<nat>)
    ensures r.Some? ==> r.value <= |s| && MatchAt(p, s, r.value).Some?
    ensures r.Some? ==> forall k :: 0 <= k < r.value ==> MatchAt(p, s, k).None?
    ensures r.None? ==> forall k :: 0 <= k <= |s| ==> MatchAt(p, s, k).None?
  {
    FirstHit(Hits(p, s), 0)
  }

  /** `content.match(re)`: the captures of the leftmost match. */
  function Match(p: Pattern, s: string): Option<Captures> {
    match Search(p, s)
    case None => None
    case Some(i) => MatchAt(p, s, i)
  }

  // ---------------------------------------------------------------------
  // Numbers

  function DigitValue(c: char): nat
    requires IsDigit(c)
  {
    c as int - '0' as int
  }

  /** The value of a run of decimal digits. */
  function DigitsValue(ds: string): nat
    requires forall k :: 0 <= k < |ds| ==> IsDigit(ds[k])
  {
    if |ds| == 0 then 0 else DigitsValue(ds[..|ds| - 1]) * 10 + DigitValue(ds[|ds| - 1])
  }

  function Pow10(n: nat): (r: nat)
    ensures r >= 1
  {
    if n == 0 then 1 else 10 * Pow10(n - 1)
  }

  /** `parseFloat` of `whole[.fraction]`, as an exact decimal. */
  function PriceOf(c: Captures): real
    requires AllDigits(c.whole) && AllDigits(c.fraction)
  {
    DigitsValue(c.whole) as real + DigitsValue(c.fraction) as real / Pow10(|c.fraction|) as real
  }

  /** The decimal digits of `n`, most significant first. */
  function NatToDigits(n: nat): (ds: string)
    ensures |ds| > 0
    ensures forall k :: 0 <= k < |ds| ==> IsDigit(ds[k])
  {
    var last := ['0' + (n % 10) as char];
    if n < 10 then last else NatToDigits(n / 10) + last
  }

  /** Reading back the digits of `n` gives `n`. */
  lemma {:induction false} DigitsRoundTrip(n: nat)
    ensures DigitsValue(NatToDigits(n)) == n
  {
    var ds := NatToDigits(n);
    assert DigitValue(ds[|ds| - 1]) == n % 10;
    if n >= 10 {
      assert ds[..|ds| - 1] == NatToDigits(n / 10);
      DigitsRoundTrip(n / 10);
    }
  }

  // ---------------------------------------------------------------------
  // The parser

  /** The reasoning recorded when the buyer accepts above the budget.
      `fmt` stands for JavaScript's number-to-text conversion. */
  function OverBudgetReasoning(price: real, maxPayment: real, fmt: real -> string): string {
    "Proposed price $" + fmt(price) + " exceeds budget of $" + fmt(maxPayment)
  }

  /** `parseDecision`: an ACCEPT sentinel within budget accepts at that
      price; one above budget is turned into a REJECT; otherwise a REJECT
      sentinel rejects; otherwise there is no decision yet. */
  function ParseDecision(content: string, maxPayment: real, fmt: real -> string): (r: Option<NegotiationOutcome>)
    ensures r.None? <==> Match(AcceptPattern, content).None? && Match(RejectPattern, content).None?
    ensures r.Some? && r.value.decision == Accept ==> r.value.price.Some? && r.value.price.value <= maxPayment
    ensures r.Some? && r.value.decision == Reject ==> r.value.price.None?
    ensures Match(AcceptPattern, content).Some? ==>
      var c := Match(AcceptPattern, content).value;
      var price := PriceOf(c);
      && (price <= maxPayment ==> r == Some(NegotiationOutcome(Accept, Some(price), Trim(c.reasoning))))
      && (price > maxPayment ==> r == Some(NegotiationOutcome(Reject, None, OverBudgetReasoning(price, maxPayment, fmt))))
    ensures Match(AcceptPattern, content).None? && Match(RejectPattern, content).Some? ==>
      r == Some(NegotiationOutcome(Reject, None, Trim(Match(RejectPattern, content).value.reasoning)))
  {
    match Match(AcceptPattern, content)
    case Some(c) =>
      var price := PriceOf(c);
      if price <= maxPayment then Some(NegotiationOutcome(Accept, Some(price), Trim(c.reasoning)))
      else Some(NegotiationOutcome(Reject, None, OverBudgetReasoning(price, maxPayment, fmt)))
    case None =>
      match Match(RejectPattern, content)
      case Some(c) => Some(NegotiationOutcome(Reject, None, Trim(c.reasoning)))
      case None => None
  }

  // ---------------------------------------------------------------------
  // Round trips: the sentinel lines the buyer is told to write

  /** `kw` spells `upper` in any mixture of ASCII case. */
  predicate SpellsIgnoringCase(kw: string, upper: string) {
    |kw| == |upper| && forall k :: 0 <= k < |kw| ==> AsciiUpper(kw[k]) == upper[k]
  }

  /** Text in which the sentinel keyword `DECISION:` does not occur, in
      any mixture of case. */
  predicate NoSentinel(t: string) {
    forall i :: 0 <= i <= |t| ==> !KeywordAt(t, i, "DECISION:")
  }

  /** A reasoning the sentinel line can carry: one line, not starting with whitespace. */
  predicate OneLineReason(r: string) {
    |r| > 0 && !IsJsWhitespace(r[0]) && forall k :: 0 <= k < |r| ==> !IsLineTerminator(r[k])
  }

  /** `DECISION: ACCEPT $<n> - <reason>` with the keywords in any case. */
  function AcceptLine(kw1: string, kw2: string, n: nat, reason: string): string {
    kw1 + " " + kw2 + " $" + NatToDigits(n) + " - " + reason
  }

  /** `DECISION: REJECT - <reason>` with the keywords in any case. */
  function RejectLine(kw1: string, kw2: string, reason: string): string {
    kw1 + " " + kw2 + " - " + reason
  }

  /** A keyword that ends within `before` is found in `before + t` exactly
      when it is found in `before`. */
  lemma KeywordInPrefix(before: string, t: string, i: nat, kw: string)
    requires i + |kw| <= |before|
    ensures KeywordAt(before + t, i, kw) == KeywordAt(before, i, kw)
  {
    var s := before + t;
    forall k | 0 <= k < |kw| ensures (AsciiUpper(s[i + k]) == kw[k]) == (AsciiUpper(before[i + k]) == kw[k]) {
      assert s[i + k] == before[i + k];
    }
  }

  /** A keyword at or after `off` in `s` is a keyword of the suffix `u`
      that starts at `off`, and the other way round. */
  lemma KeywordInSuffix(s: string, off: nat, u: string, j: nat, kw: string)
    requires off + |u| == |s| && s[off..] == u && j <= |u|
    ensures KeywordAt(s, off + j, kw) == KeywordAt(u, j, kw)
  {
    forall k | 0 <= k < |kw| && j + k < |u| ensures (AsciiUpper(s[off + j + k]) == kw[k]) == (AsciiUpper(u[j + k]) == kw[k]) {
      assert s[off + j + k] == u[j + k];
    }
  }

  /** `DECISION:` has no border: a D (of either case) at `b` is not the
      second to ninth character of a sentinel. */
  lemma KeywordNotAcrossJoin(s: string, b: nat, i: nat)
    requires i < b < i + 9 && b < |s| && AsciiUpper(s[b]) == 'D'
    ensures !KeywordAt(s, i, "DECISION:")
  {
    var m := b - i;
    assert "DECISION:"[m] != 'D';
    assert s[i + m] == s[b];
  }

  /** `\s*(.+)` after a single space followed by a one-line reasoning
      captures exactly that reasoning. */
  lemma ReasoningAfterSpace(s: string, m: nat)
    requires m < |s| && s[m] == ' ' && OneLineReason(s[m + 1..])
    ensures ReasoningFrom(s, m) == Some(s[m + 1..])
  {
    var r := s[m + 1..];
    assert s[m + 1] == r[0];
    assert SkipWhitespace(s, m + 1) == m + 1;
    assert SkipWhitespace(s, m) == m + 1;
    assert BacktrackStart(s, m, m + 1) == Some(m + 1);
    forall k | m + 1 <= k < |s| ensures !IsLineTerminator(s[k]) {
      assert s[k] == r[k - m - 1];
    }
    var j := LineEnd(s, m + 1);
    assert s[m + 1..j] == r;
  }

  /** A keyword written in any case is recognised where it is written. */
  lemma KeywordWritten(s: string, i: nat, kw: string, upper: string)
    requires SpellsIgnoringCase(kw, upper) && i + |kw| <= |s| && s[i..i + |kw|] == kw
    ensures KeywordAt(s, i, upper)
  {
    forall k | 0 <= k < |kw| ensures AsciiUpper(s[i + k]) == upper[k] {
      assert s[i + k] == s[i..i + |kw|][k];
    }
  }

  /** The layout of an ACCEPT line, position by position. */
  lemma AcceptLineLayout(kw1: string, kw2: string, n: nat, reason: string)
    requires |kw1| == 9 && |kw2| == 6
    ensures var t := AcceptLine(kw1, kw2, n, reason); var d := 18 + |NatToDigits(n)|;
      && |t| == d + 3 + |reason|
      && t[..9] == kw1 && t[9] == ' ' && t[10..16] == kw2 && t[16] == ' ' && t[17] == '$'
      && t[18..d] == NatToDigits(n) && t[d] == ' ' && t[d + 1] == '-' && t[d + 2] == ' '
      && t[d + 3..] == reason
  {
  }

  /** `<digits> - <reason>` laid out from `c` to the end of `s`. */
  predicate PriceLayoutAt(s: string, c: nat, ds: string, reason: string) {
    var d := c + |ds|;
    && d + 3 + |reason| == |s|
    && s[c..d] == ds && s[d] == ' ' && s[d + 1] == '-' && s[d + 2] == ' ' && s[d + 3..] == reason
  }

  /** The price and reasoning read from `<digits> - <reason>` at `c`. */
  lemma PriceFromLine(s: string, c: nat, ds: string, reason: string)
    requires |ds| > 0 && AllDigits(ds)
    requires OneLineReason(reason)
    requires PriceLayoutAt(s, c, ds, reason)
    ensures PriceFrom(s, c) == Some(Captures(ds, "", reason))
  {
    var d := c + |ds|;
    assert SkipDigits(s, c) == d by {
      forall k | c <= k < d ensures IsDigit(s[k]) {
        assert s[k] == ds[k - c];
      }
    }
    assert FractionEnd(s, d) == d;
    assert SkipWhitespace(s, d) == d + 1 by {
      assert SkipWhitespace(s, d + 1) == d + 1;
    }
    assert ReasoningFrom(s, d + 2) == Some(reason) by {
      ReasoningAfterSpace(s, d + 2);
    }
  }

  /** At the start of `DECISION: ACCEPT $`, the ACCEPT expression reads the
      price and the reasoning from just after the `$`. */
  lemma AcceptMatchesAt(s: string, i: nat)
    requires i + 18 <= |s|
    requires KeywordAt(s, i, "DECISION:") && s[i + 9] == ' '
    requires KeywordAt(s, i + 10, "ACCEPT") && s[i + 16] == ' ' && s[i + 17] == '$'
    ensures MatchAt(AcceptPattern, s, i) == PriceFrom(s, i + 18)
  {
    assert SkipWhitespace(s, i + 9) == i + 10 by {
      assert AsciiUpper(s[i + 10 + 0]) == "ACCEPT"[0];
      assert SkipWhitespace(s, i + 10) == i + 10;
    }
    assert AcceptFrom(s, i + 10) == PriceFrom(s, i + 18) by {
      assert SkipWhitespace(s, i + 17) == i + 17;
      assert SkipWhitespace(s, i + 16) == i + 17;
    }
  }

  /** Leftmost-match search finds `j` when `p` matches there and nowhere before. */
  lemma SearchFinds(p: Pattern, s: string, j: nat)
    requires j <= |s| && MatchAt(p, s, j).Some?
    requires forall i :: 0 <= i < j ==> MatchAt(p, s, i).None?
    ensures Match(p, s) == MatchAt(p, s, j)
  {
    var r := Search(p, s);
    assert r.Some?;
    assert !(r.value < j);
    assert !(r.value > j);
  }

  /** An ACCEPT line with price digits `ds` and reasoning `reason` laid out
      from `i` to the end of `s`. */
  predicate AcceptLayoutAt(s: string, i: nat, ds: string, reason: string) {
    && i + 18 <= |s|
    && KeywordAt(s, i, "DECISION:") && s[i + 9] == ' '
    && KeywordAt(s, i + 10, "ACCEPT") && s[i + 16] == ' ' && s[i + 17] == '$'
    && PriceLayoutAt(s, i + 18, ds, reason)
  }

  /** A keyword at `i` in `t` is at `|before| + i` in `before + t`. */
  lemma KeywordAfter(before: string, t: string, i: nat, kw: string)
    requires KeywordAt(t, i, kw)
    ensures KeywordAt(before + t, |before| + i, kw)
  {
    var s := before + t;
    forall k | 0 <= k < |kw| ensures AsciiUpper(s[|before| + i + k]) == kw[k] {
      assert s[|before| + i + k] == t[i + k];
    }
  }

  /** Writing text in front of a laid-out ACCEPT line moves the layout. */
  lemma AcceptLayoutAfter(before: string, t: string, ds: string, reason: string)
    requires AcceptLayoutAt(t, 0, ds, reason)
    ensures AcceptLayoutAt(before + t, |before|, ds, reason)
  {
    var s, b := before + t, |before|;
    var d := 18 + |ds|;
    KeywordAfter(before, t, 0, "DECISION:");
    KeywordAfter(before, t, 10, "ACCEPT");
    assert s[b + 9] == t[9] && s[b + 16] == t[16] && s[b + 17] == t[17];
    assert s[b + d] == t[d] && s[b + d + 1] == t[d + 1] && s[b + d + 2] == t[d + 2];
    assert s[b + 18..b + d] == t[18..d];
    assert s[b + d + 3..] == t[d + 3..];
  }

  /** A laid-out ACCEPT line matches where it starts, capturing its price
      digits and its reasoning. */
  lemma AcceptLayoutMatches(s: string, i: nat, ds: string, reason: string)
    requires |ds| > 0 && AllDigits(ds) && OneLineReason(reason)
    requires AcceptLayoutAt(s, i, ds, reason)
    ensures MatchAt(AcceptPattern, s, i) == Some(Captures(ds, "", reason))
  {
    AcceptMatchesAt(s, i);
    PriceFromLine(s, i + 18, ds, reason);
  }

  /** No match starts in text without a sentinel written before a `t` that
      starts with a D: a match would need a sentinel inside `before` or one
      running across the join. */
  lemma NoMatchInPrefix(p: Pattern, before: string, t: string)
    requires NoSentinel(before)
    requires 0 < |t| && AsciiUpper(t[0]) == 'D'
    ensures forall i :: 0 <= i < |before| ==> MatchAt(p, before + t, i).None?
  {
    var s := before + t;
    assert s[|before|] == t[0];
    forall i | 0 <= i < |before| ensures MatchAt(p, s, i).None? {
      if i + 9 <= |before| {
        KeywordInPrefix(before, t, i, "DECISION:");
      } else {
        KeywordNotAcrossJoin(s, |before|, i);
      }
    }
  }

  /** The ACCEPT expression matched at the start of a laid-out ACCEPT line `t`
      written after text without a sentinel. */
  lemma AcceptMatchesAfter(before: string, t: string, ds: string, reason: string)
    requires NoSentinel(before)
    requires |ds| > 0 && AllDigits(ds) && OneLineReason(reason)
    requires AcceptLayoutAt(t, 0, ds, reason)
    ensures Match(AcceptPattern, before + t) == Some(Captures(ds, "", reason))
  {
    var s := before + t;
    assert MatchAt(AcceptPattern, s, |before|) == Some(Captures(ds, "", reason)) by {
      AcceptLayoutAfter(before, t, ds, reason);
      AcceptLayoutMatches(s, |before|, ds, reason);
    }
    assert AsciiUpper(t[0 + 0]) == "DECISION:"[0];
    NoMatchInPrefix(AcceptPattern, before, t);
    SearchFinds(AcceptPattern, s, |before|);
  }

  /** The captures of an ACCEPT line written after any text without a sentinel. */
  lemma AcceptLineMatches(before: string, kw1: string, kw2: string, n: nat, reason: string)
    requires NoSentinel(before)
    requires SpellsIgnoringCase(kw1, "DECISION:") && SpellsIgnoringCase(kw2, "ACCEPT")
    requires OneLineReason(reason)
    ensures Match(AcceptPattern, before + AcceptLine(kw1, kw2, n, reason)) == Some(Captures(NatToDigits(n), "", reason))
  {
    var t := AcceptLine(kw1, kw2, n, reason);
    AcceptLineLayout(kw1, kw2, n, reason);
    KeywordWritten(t, 0, kw1, "DECISION:");
    KeywordWritten(t, 10, kw2, "ACCEPT");
    AcceptMatchesAfter(before, t, NatToDigits(n), reason);
  }

  /** An ACCEPT line written by the buyer, after any text that does not
      itself contain the sentinel, is parsed as ACCEPT at that price with the
      trimmed reasoning when within budget, and as a budget REJECT
      otherwise. Keywords may be in any case. */
  lemma AcceptLineRoundTrip(before: string, kw1: string, kw2: string, n: nat, reason: string,
                            maxPayment: real, fmt: real -> string)
    requires NoSentinel(before)
    requires SpellsIgnoringCase(kw1, "DECISION:") && SpellsIgnoringCase(kw2, "ACCEPT")
    requires OneLineReason(reason)
    ensures var r := ParseDecision(before + AcceptLine(kw1, kw2, n, reason), maxPayment, fmt);
      && (n as real <= maxPayment ==> r == Some(NegotiationOutcome(Accept, Some(n as real), Trim(reason))))
      && (n as real > maxPayment ==> r == Some(NegotiationOutcome(Reject, None, OverBudgetReasoning(n as real, maxPayment, fmt))))
  {
    AcceptLineMatches(before, kw1, kw2, n, reason);
    AcceptOfWholePrice(before + AcceptLine(kw1, kw2, n, reason), n, reason, maxPayment, fmt);
  }

  /** What the parse makes of an ACCEPT match whose price is the whole number `n`. */
  lemma AcceptOfWholePrice(content: string, n: nat, reason: string, maxPayment: real, fmt: real -> string)
    requires Match(AcceptPattern, content) == Some(Captures(NatToDigits(n), "", reason))
    ensures var r := ParseDecision(content, maxPayment, fmt);
      && (n as real <= maxPayment ==> r == Some(NegotiationOutcome(Accept, Some(n as real), Trim(reason))))
      && (n as real > maxPayment ==> r == Some(NegotiationOutcome(Reject, None, OverBudgetReasoning(n as real, maxPayment, fmt))))
  {
    var c := Captures(NatToDigits(n), "", reason);
    assert PriceOf(c) == n as real by {
      DigitsRoundTrip(n);
      assert DigitsValue(c.fraction) == 0 && Pow10(|c.fraction|) == 1;
    }
  }

  /** No sentinel starts at a character other than D or d. */
  lemma NoMatchWithoutD(p: Pattern, s: string, i: nat)
    requires i <= |s| && (i < |s| ==> AsciiUpper(s[i]) != 'D')
    ensures MatchAt(p, s, i).None?
  {
    if i < |s| {
      assert AsciiUpper(s[i + 0]) != "DECISION:"[0];
    }
  }

  /** Leftmost-match search fails when `p` matches nowhere. */
  lemma SearchFails(p: Pattern, s: string)
    requires forall i :: 0 <= i <= |s| ==> MatchAt(p, s, i).None?
    ensures Match(p, s).None?
  {
  }

  /** The layout of a REJECT line, position by position. */
  lemma RejectLineLayout(kw1: string, kw2: string, reason: string)
    requires |kw1| == 9 && |kw2| == 6
    ensures var t := RejectLine(kw1, kw2, reason);
      && |t| == 19 + |reason|
      && t[..9] == kw1 && t[9] == ' ' && t[10..16] == kw2 && t[16] == ' ' && t[17] == '-' && t[18] == ' '
      && t[19..] == reason
  {
  }

  /** The REJECT expression matched at the start of a REJECT line. */
  lemma RejectMatchesAt(s: string, i: nat, reason: string)
    requires OneLineReason(reason)
    requires i + 19 + |reason| == |s|
    requires KeywordAt(s, i, "DECISION:") && s[i + 9] == ' '
    requires KeywordAt(s, i + 10, "REJECT") && s[i + 16] == ' ' && s[i + 17] == '-' && s[i + 18] == ' '
    requires s[i + 19..] == reason
    ensures MatchAt(RejectPattern, s, i) == Some(Captures("", "", reason))
  {
    assert AsciiUpper(s[i + 10 + 0]) == "REJECT"[0];
    assert SkipWhitespace(s, i + 10) == i + 10;
    assert SkipWhitespace(s, i + 9) == i + 10;
    assert SkipWhitespace(s, i + 17) == i + 17;
    assert SkipWhitespace(s, i + 16) == i + 17;
    ReasoningAfterSpace(s, i + 18);
  }

  /** Before its reasoning, the only D of a REJECT line is the first letter
      of the sentinel. */
  lemma RejectHeadHasOneD(t: string, k: nat)
    requires |t| >= 19 && KeywordAt(t, 0, "DECISION:") && t[9] == ' ' && KeywordAt(t, 10, "REJECT")
    requires t[16] == ' ' && t[17] == '-' && t[18] == ' '
    requires 0 < k < 19
    ensures AsciiUpper(t[k]) != 'D'
  {
    if k < 9 {
      assert AsciiUpper(t[0 + k]) == "DECISION:"[k];
    } else if 10 <= k < 16 {
      assert AsciiUpper(t[10 + (k - 10)]) == "REJECT"[k - 10];
    }
  }

  /** A laid-out REJECT line `t` after text without a sentinel matches
      REJECT, and not ACCEPT when its reasoning has no sentinel either. */
  lemma RejectMatchesAfter(before: string, t: string, reason: string)
    requires NoSentinel(before) && NoSentinel(reason)
    requires OneLineReason(reason)
    requires |t| == 19 + |reason| && KeywordAt(t, 0, "DECISION:") && t[9] == ' ' && KeywordAt(t, 10, "REJECT")
    requires t[16] == ' ' && t[17] == '-' && t[18] == ' ' && t[19..] == reason
    ensures Match(AcceptPattern, before + t).None?
    ensures Match(RejectPattern, before + t) == Some(Captures("", "", reason))
  {
    var s := before + t;
    var b0 := |before|;
    assert s[..b0] == before;
    forall k | 0 <= k < |t| ensures s[b0 + k] == t[k] { }
    KeywordWritten(s, b0, t[..9], "DECISION:");
    assert s[b0 + 10..b0 + 16] == t[10..16];
    KeywordWritten(s, b0 + 10, t[10..16], "REJECT");
    assert s[b0 + 19..] == t[19..];
    RejectMatchesAt(s, b0, reason);
    assert AsciiUpper(t[0 + 0]) == "DECISION:"[0];
    NoMatchInPrefix(RejectPattern, before, t);
    SearchFinds(RejectPattern, s, b0);
    NoAcceptInRejectLine(before, t, reason);
  }

  /** No ACCEPT match starts anywhere in text without a sentinel followed
      by a laid-out REJECT line whose reasoning has no sentinel. */
  lemma NoAcceptInRejectLine(before: string, t: string, reason: string)
    requires NoSentinel(before) && NoSentinel(reason)
    requires |t| == 19 + |reason| && KeywordAt(t, 0, "DECISION:") && t[9] == ' ' && KeywordAt(t, 10, "REJECT")
    requires t[16] == ' ' && t[17] == '-' && t[18] == ' ' && t[19..] == reason
    ensures Match(AcceptPattern, before + t).None?
  {
    var s := before + t;
    var b0 := |before|;
    assert AsciiUpper(t[0 + 0]) == "DECISION:"[0];
    NoMatchInPrefix(AcceptPattern, before, t);
    assert s[b0 + 19..] == reason;
    forall i | b0 <= i <= |s| ensures MatchAt(AcceptPattern, s, i).None? {
      if i == b0 {
        assert s[b0 + 10] == t[10 + 0] && AsciiUpper(t[10 + 0]) == "REJECT"[0];
        assert s[b0 + 9] == t[9];
        RejectIsNotAccept(s, b0);
      } else if i < b0 + 19 {
        assert s[i] == t[i - b0];
        RejectHeadHasOneD(t, i - b0);
        NoMatchWithoutD(AcceptPattern, s, i);
      } else {
        KeywordInSuffix(s, b0 + 19, reason, i - b0 - 19, "DECISION:");
      }
    }
    SearchFails(AcceptPattern, s);
  }

  /** Where the REJECT keyword follows the first sentinel, ACCEPT cannot match. */
  lemma RejectIsNotAccept(s: string, i: nat)
    requires i + 16 <= |s| && s[i + 9] == ' ' && AsciiUpper(s[i + 10]) == 'R'
    ensures MatchAt(AcceptPattern, s, i).None?
  {
    assert SkipWhitespace(s, i + 10) == i + 10;
    assert SkipWhitespace(s, i + 9) == i + 10;
    assert AsciiUpper(s[i + 10 + 0]) != "ACCEPT"[0];
  }

  /** A REJECT line written after any text that does not contain the
      sentinel, whose reasoning does not contain it either (so no ACCEPT
      sentinel hides in it), is parsed as REJECT with the trimmed
      reasoning. */
  lemma RejectLineRoundTrip(before: string, kw1: string, kw2: string, reason: string,
                            maxPayment: real, fmt: real -> string)
    requires NoSentinel(before) && NoSentinel(reason)
    requires SpellsIgnoringCase(kw1, "DECISION:") && SpellsIgnoringCase(kw2, "REJECT")
    requires OneLineReason(reason)
    ensures ParseDecision(before + RejectLine(kw1, kw2, reason), maxPayment, fmt)
      == Some(NegotiationOutcome(Reject, None, Trim(reason)))
  {
    var t := RejectLine(kw1, kw2, reason);
    RejectLineLayout(kw1, kw2, reason);
    KeywordWritten(t, 0, kw1, "DECISION:");
    KeywordWritten(t, 10, kw2, "REJECT");
    RejectMatchesAfter(before, t, reason);
  }

  /** Whatever the text, a parsed ACCEPT never exceeds the budget. */
  lemma AcceptNeverOverBudget(content: string, maxPayment: real, fmt: real -> string)
    ensures var r := ParseDecision(content, maxPayment, fmt);
      r.Some? && r.value.decision == Accept ==> r.value.price.value <= maxPayment
  {
  }
}
