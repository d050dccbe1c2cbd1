/** The price-text parser: six currency patterns, tried in a fixed priority
    order, each searched for its leftmost occurrence in the text. Every
    pattern has the shape `(M1|M2|...)\s*([0-9][0-9,]*(?:\.[0-9]{2})?)`,
    matched case-insensitively, with no fraction for the yen. Each pattern is
    matched by hand here, following the way a backtracking regular-expression
    engine tries the positions, the alternatives and the quantifiers. */
module Price {
  import opened Wrappers
  import opened Text

  datatype Currency = USD | EUR | GBP | CAD | AUD | JPY

  /** One alternative of a pattern's marker group. */
  datatype Marker =
    | Literal(text: string)   // matched ignoring case; `text` is in lower case
    | UsDollar                // `US\s?\$`: "us", at most one whitespace, "$"

  /** `markers` are the alternatives in the order the pattern lists them;
      `fraction` says whether the optional `.dd` part is allowed. */
  datatype Pattern = Pattern(markers: seq<Marker>, fraction: bool, currency: Currency)

  const Euro: char := '\U{20AC}'
  const Pound: char := '\U{00A3}'
  const Yen: char := '\U{00A5}'

  /** The patterns in the order they are tried. */
  const Patterns: seq<Pattern> := [
    Pattern([Literal("usd"), UsDollar, Literal("$")], true, USD),
    Pattern([Literal("eur"), Literal([Euro])], true, EUR),
    Pattern([Literal("gbp"), Literal([Pound])], true, GBP),
    Pattern([Literal("cad"), Literal("c$")], true, CAD),
    Pattern([Literal("aud"), Literal("a$")], true, AUD),
    Pattern([Literal("jpy"), Literal([Yen])], false, JPY)
  ]

  /** The position of a currency in the priority order. */
  function Rank(c: Currency): (k: nat)
    ensures k < |Patterns| && Patterns[k].currency == c
  {
    match c
    case USD => 0
    case EUR => 1
    case GBP => 2
    case CAD => 3
    case AUD => 4
    case JPY => 5
  }

  /** The character a case-insensitive match compares: ASCII capitals become
      small letters, and the long s (U+017F) is taken as `s`, as Python's
      regular-expression engine does under IGNORECASE. */
  function Fold(c: char): char {
    if 'A' <= c <= 'Z' then (c as int + 32) as char
    else if c == '\U{017F}' then 's'
    else c
  }

  /** A character that only matches itself under IGNORECASE. */
  predicate Caseless(c: char) {
    Fold(c) == c && !('a' <= c <= 'z')
  }

  lemma CaselessMatchesOnlyItself(c: char, d: char)
    requires Caseless(c) && Fold(c) == Fold(d)
    ensures c == d
  {
  }

  /** `w` (in lower case) occurs at position `p` of `s`, ignoring case. */
  predicate LiteralAt(s: string, p: nat, w: string) {
    p + |w| <= |s| && forall k :: 0 <= k < |w| ==> Fold(s[p + k]) == w[k]
  }

  /** The positions where marker `m` can end when it starts at `p`, in the
      order the engine tries them (for `US\s?\$`: with the whitespace first). */
  function MarkerEnds(m: Marker, s: string, p: nat): (ends: seq<nat>)
    ensures forall i :: 0 <= i < |ends| ==> p < ends[i] <= |s|
  {
    match m
    case Literal(w) =>
      if w != [] && LiteralAt(s, p, w) then [p + |w|] else []
    case UsDollar =>
      if LiteralAt(s, p, "us") then
        (if p + 3 < |s| && IsSpace(s[p + 2]) && s[p + 3] == '$' then [p + 4] else [])
        + (if p + 2 < |s| && s[p + 2] == '$' then [p + 3] else [])
      else []
  }

  /** The first position at or after `q` that is not whitespace (`\s*`). */
  function SkipSpaces(s: string, q: nat): (r: nat)
    requires q <= |s|
    ensures q <= r <= |s|
    ensures forall k :: q <= k < r ==> IsSpace(s[k])
    ensures r == |s| || !IsSpace(s[r])
    decreases |s| - q
  {
    if q < |s| && IsSpace(s[q]) then SkipSpaces(s, q + 1) else q
  }

  /** The end of the longest run of digits and commas from `q` (`[0-9,]*`). */
  function SkipDigitsCommas(s: string, q: nat): (r: nat)
    requires q <= |s|
    ensures q <= r <= |s|
    ensures forall k :: q <= k < r ==> IsDigit(s[k]) || s[k] == ','
    ensures r == |s| || !(IsDigit(s[r]) || s[r] == ',')
    decreases |s| - q
  {
    if q < |s| && (IsDigit(s[q]) || s[q] == ',') then SkipDigitsCommas(s, q + 1) else q
  }

  predicate DigitsCommas(a: string) {
    forall i :: 0 <= i < |a| ==> IsDigit(a[i]) || a[i] == ','
  }

  /** The shape of a captured amount: a digit, then digits and commas, then,
      when the pattern allows it, an optional `.` with exactly two digits. */
  predicate IsCapture(a: string, fraction: bool) {
    |a| >= 1 && IsDigit(a[0]) &&
    (DigitsCommas(a) ||
     (fraction && |a| >= 4 && a[|a| - 3] == '.' && DigitsCommas(a[..|a| - 3])
      && IsDigit(a[|a| - 2]) && IsDigit(a[|a| - 1])))
  }

  /** `\s*([0-9][0-9,]*(?:\.[0-9]{2})?)` tried at `q`: the captured amount.
      Both quantifiers are greedy and nothing follows the group, so the longest
      digit-and-comma run is taken and then the fraction when one is there. */
  function AmountAt(s: string, q: nat, fraction: bool): (r: Option<string>)
    requires q <= |s|
    ensures r.Some? ==> IsCapture(r.value, fraction)
  {
    var d := SkipSpaces(s, q);
    if d < |s| && IsDigit(s[d]) then
      var e := SkipDigitsCommas(s, d + 1);
      var f := FractionEnd(s, e, fraction);
      CaptureShape(s, d, e, fraction);
      Some(s[d..f])
    else None
  }

  /** The end of `(?:\.[0-9]{2})?` tried at `e`: past the fraction when the
      pattern has one and it is there, else `e`. */
  function FractionEnd(s: string, e: nat, fraction: bool): (f: nat)
    requires e <= |s|
    ensures e <= f <= |s|
  {
    if fraction && e + 3 <= |s| && s[e] == '.' && IsDigit(s[e + 1]) && IsDigit(s[e + 2]) then e + 3 else e
  }

  lemma CaptureShape(s: string, d: nat, e: nat, fraction: bool)
    requires d < e <= |s| && IsDigit(s[d])
    requires forall k :: d < k < e ==> IsDigit(s[k]) || s[k] == ','
    ensures IsCapture(s[d..FractionEnd(s, e, fraction)], fraction)
  {
    var f := FractionEnd(s, e, fraction);
    assert DigitsCommas(s[d..e]);
    if f > e {
      assert s[d..f][..|s[d..f]| - 3] == s[d..e];
    }
  }

  /** The amount the tail captures after the first marker end that lets it match. */
  function FirstAmount(s: string, ends: seq<nat>, fraction: bool): (r: Option<string>)
    requires forall i :: 0 <= i < |ends| ==> ends[i] <= |s|
    ensures r.Some? ==> IsCapture(r.value, fraction)
  {
    if ends == [] then None
    else match AmountAt(s, ends[0], fraction)
      case Some(a) => Some(a)
      case None => FirstAmount(s, ends[1..], fraction)
  }

  /** The amount a pattern whose marker alternatives are `markers` captures
      when its match starts at `p`: the first alternative that leads to a
      match wins. */
  function MarkersAt(markers: seq<Marker>, s: string, p: nat, fraction: bool): Option<string>
  {
    if markers == [] then None
    else match FirstAmount(s, MarkerEnds(markers[0], s, p), fraction)
      case Some(a) => Some(a)
      case None => MarkersAt(markers[1..], s, p, fraction)
  }

  function MatchAt(pat: Pattern, s: string, p: nat): Option<string> {
    MarkersAt(pat.markers, s, p, pat.fraction)
  }

  /** A match: where it starts and the amount it captured. */
  datatype Hit = Hit(pos: nat, amount: string)

  /** The scan of `re.search`: the leftmost position from `p` to `n` at which
      `m` reports a match, with what it captured there. */
  function FirstHit(m: nat -> Option<string>, p: nat, n: nat): Option<Hit>
    requires p <= n
    decreases n - p
  {
    match m(p)
    case Some(a) => Some(Hit(p, a))
    case None => if p == n then None else FirstHit(m, p + 1, n)
  }

  /** The scan finds the leftmost position at or after `p` where `m`
      matches, with the amount captured there, and finds nothing exactly
      when `m` matches nowhere. */
  lemma {:induction false} FirstHitLeftmost(m: nat -> Option<string>, p: nat, n: nat)
    requires p <= n
    ensures var r := FirstHit(m, p, n);
            && (r.Some? ==> p <= r.value.pos <= n && m(r.value.pos) == Some(r.value.amount))
            && (r.Some? ==> forall q :: p <= q < r.value.pos ==> m(q).None?)
            && (r.None? <==> forall q :: p <= q <= n ==> m(q).None?)
    decreases n - p
  {
    if m(p).None? && p < n {
      FirstHitLeftmost(m, p + 1, n);
    }
  }

  /** Scans that see the same matches find the same hit. */
  lemma {:induction false} FirstHitSame(m1: nat -> Option<string>, m2: nat -> Option<string>, p: nat, n: nat)
    requires p <= n
    requires forall q :: p <= q <= n ==> m1(q) == m2(q)
    ensures FirstHit(m1, p, n) == FirstHit(m2, p, n)
    decreases n - p
  {
    if m1(p).None? && p < n {
      FirstHitSame(m1, m2, p + 1, n);
    }
  }

  /** Python's `re.search`: the leftmost position at which the pattern
      matches; the end of the text is a position too. */
  function Search(pat: Pattern, s: string): Option<Hit> {
    FirstHit(Matcher(pat, s), 0, |s|)
  }

  /** The pattern tried at each position of `s`. */
  function Matcher(pat: Pattern, s: string): nat -> Option<string> {
    (q: nat) => MatchAt(pat, s, q)
  }

  lemma SearchLeftmost(pat: Pattern, s: string)
    ensures Search(pat, s).Some? ==> MatchAt(pat, s, Search(pat, s).value.pos) == Some(Search(pat, s).value.amount)
    ensures Search(pat, s).Some? ==> forall q :: 0 <= q < Search(pat, s).value.pos ==> MatchAt(pat, s, q).None?
    ensures Search(pat, s).None? <==> forall q :: 0 <= q <= |s| ==> MatchAt(pat, s, q).None?
  {
    var m := Matcher(pat, s);
    FirstHitLeftmost(m, 0, |s|);
    forall q: nat ensures m(q) == MatchAt(pat, s, q) {
    }
  }

  /** A match at `p` with none before it is what the search finds. */
  lemma SearchFinds(pat: Pattern, s: string, p: nat)
    requires p <= |s| && MatchAt(pat, s, p).Some?
    requires forall q :: 0 <= q < p ==> MatchAt(pat, s, q).None?
    ensures Search(pat, s) == Some(Hit(p, MatchAt(pat, s, p).value))
  {
    SearchLeftmost(pat, s);
    var h := Search(pat, s).value;
    assert !(h.pos < p) && !(p < h.pos);
  }

  /** The parsed amount: a number in hundredths, or the raw text when the
      conversion to a number fails (the `ValueError` branch). */
  datatype Amount = Number(hundredths: nat) | Raw(text: string)

  datatype PriceMatch = PriceMatch(currency: Currency, amount: Amount)

  /** Python's `s.replace(",", "")`. */
  function RemoveCommas(s: string): (r: string)
    ensures forall i :: 0 <= i < |r| ==> r[i] != ','
    ensures |r| <= |s|
    ensures forall c :: c != ',' ==> multiset(r)[c] == multiset(s)[c]
  {
    if s == [] then []
    else
      assert s == [s[0]] + s[1..];
      (if s[0] == ',' then [] else [s[0]]) + RemoveCommas(s[1..])
  }

  /** Numerals the float conversion is asked about: digits, optionally
      followed by a point and exactly two digits. */
  predicate IsNumeral(t: string) {
    |t| >= 1 &&
    (AllDigits(t) ||
     (|t| >= 4 && t[|t| - 3] == '.' && AllDigits(t[..|t| - 3]) && AllDigits(t[|t| - 2..])))
  }

  /** The value of a numeral in hundredths. */
  function Hundredths(t: string): nat
    requires IsNumeral(t)
  {
    if AllDigits(t) then DecimalValue(t) * 100
    else DecimalValue(t[..|t| - 3]) * 100 + DecimalValue(t[|t| - 2..])
  }

  /** `float(amt)` with its `ValueError` fallback. */
  function ToAmount(t: string): Amount {
    if IsNumeral(t) then Number(Hundredths(t)) else Raw(t)
  }

  function MatchOf(pat: Pattern, h: Hit): PriceMatch {
    PriceMatch(pat.currency, ToAmount(RemoveCommas(h.amount)))
  }

  /** The result of the first pattern in `pats` that matches anywhere in `s`. */
  function FirstMatch(pats: seq<Pattern>, s: string): Option<PriceMatch> {
    if pats == [] then None
    else match Search(pats[0], s)
      case Some(h) => Some(MatchOf(pats[0], h))
      case None => FirstMatch(pats[1..], s)
  }

  /** `parse_price_any`: no match for the empty text, otherwise the first
      pattern, in priority order, that matches. */
  function ParsePrice(s: string): Option<PriceMatch> {
    if s == [] then None else FirstMatch(Patterns, s)
  }

  /** The loop over the pattern list with its early return. */
  method ParsePriceAny(priceText: string) returns (r: Option<PriceMatch>)
    ensures r == ParsePrice(priceText)
  {
    if priceText == [] {
      return None;
    }
    var patterns := Patterns;
    var i := 0;
    while i < |patterns|
      invariant 0 <= i <= |patterns|
      invariant FirstMatch(patterns[i..], priceText) == FirstMatch(Patterns, priceText)
    {
      var m := Search(patterns[i], priceText);
      if m.Some? {
        var amt := RemoveCommas(m.value.amount);
        return Some(PriceMatch(patterns[i].currency, ToAmount(amt)));
      }
      assert patterns[i..][1..] == patterns[i + 1..];
      i := i + 1;
    }
    return None;
  }

  // ---------------------------------------------------------------------
  // Priority: the first pattern in list order that matches anywhere wins.

  lemma {:induction false} FirstMatchIs(pats: seq<Pattern>, s: string, i: nat)
    requires i < |pats| && Search(pats[i], s).Some?
    requires forall j :: 0 <= j < i ==> Search(pats[j], s).None?
    ensures FirstMatch(pats, s) == Some(MatchOf(pats[i], Search(pats[i], s).value))
  {
    if i > 0 {
      assert Search(pats[0], s).None?;
      FirstMatchIs(pats[1..], s, i - 1);
    }
  }

  lemma {:induction false} FirstMatchWinner(pats: seq<Pattern>, s: string)
    requires FirstMatch(pats, s).Some?
    ensures exists i :: 0 <= i < |pats| && Search(pats[i], s).Some?
                     && FirstMatch(pats, s) == Some(MatchOf(pats[i], Search(pats[i], s).value))
                     && forall j :: 0 <= j < i ==> Search(pats[j], s).None?
  {
    if Search(pats[0], s).None? {
      FirstMatchWinner(pats[1..], s);
      var i :| 0 <= i < |pats| - 1 && Search(pats[1..][i], s).Some?
        && FirstMatch(pats[1..], s) == Some(MatchOf(pats[1..][i], Search(pats[1..][i], s).value))
        && forall j :: 0 <= j < i ==> Search(pats[1..][j], s).None?;
      assert forall j :: 0 <= j < i + 1 ==> Search(pats[j], s).None? by {
        forall j | 0 <= j < i + 1 ensures Search(pats[j], s).None? {
          if j > 0 { assert pats[j] == pats[1..][j - 1]; }
        }
      }
      assert pats[i + 1] == pats[1..][i];
    } else {
      assert Search(pats[0], s).Some?;
    }
  }

  lemma {:induction false} FirstMatchNone(pats: seq<Pattern>, s: string)
    ensures FirstMatch(pats, s).None? <==> forall j :: 0 <= j < |pats| ==> Search(pats[j], s).None?
  {
    if pats != [] && Search(pats[0], s).None? {
      FirstMatchNone(pats[1..], s);
      assert forall j :: 1 <= j < |pats| ==> pats[j] == pats[1..][j - 1];
    }
  }

  /** When currency `c`'s pattern matches and no pattern before it does, the
      result is `c` with the amount of `c`'s leftmost match, wherever in the
      text the other currencies' markers stand. */
  lemma ParsePricePriority(s: string, c: Currency)
    requires Search(Patterns[Rank(c)], s).Some?
    requires forall d :: Rank(d) < Rank(c) ==> Search(Patterns[Rank(d)], s).None?
    ensures ParsePrice(s) == Some(MatchOf(Patterns[Rank(c)], Search(Patterns[Rank(c)], s).value))
  {
    var pat := Patterns[Rank(c)];
    SearchLeftmost(pat, s);
    MatchNeedsText(pat.markers, s, Search(pat, s).value.pos, pat.fraction);
    forall j | 0 <= j < Rank(c) ensures Search(Patterns[j], s).None? {
      RankIndex(j);
    }
    FirstMatchIs(Patterns, s, Rank(c));
  }

  /** Conversely, a result names the first pattern that matches: its own
      pattern matches and no pattern that comes before it does. */
  lemma ParsePriceWinner(s: string)
    requires ParsePrice(s).Some?
    ensures var c := ParsePrice(s).value.currency;
            && Search(Patterns[Rank(c)], s).Some?
            && ParsePrice(s) == Some(MatchOf(Patterns[Rank(c)], Search(Patterns[Rank(c)], s).value))
            && forall d :: Rank(d) < Rank(c) ==> Search(Patterns[Rank(d)], s).None?
  {
    FirstMatchWinner(Patterns, s);
    var i :| 0 <= i < |Patterns| && Search(Patterns[i], s).Some?
      && FirstMatch(Patterns, s) == Some(MatchOf(Patterns[i], Search(Patterns[i], s).value))
      && forall j :: 0 <= j < i ==> Search(Patterns[j], s).None?;
    RankIndex(i);
  }

  /** No match at all exactly when the text is empty or no pattern matches. */
  lemma ParsePriceNone(s: string)
    ensures ParsePrice(s).None? <==> s == [] || forall c :: Search(Patterns[Rank(c)], s).None?
  {
    FirstMatchNone(Patterns, s);
    forall j | 0 <= j < |Patterns| ensures Rank(Patterns[j].currency) == j {
      RankIndex(j);
    }
  }

  lemma RankIndex(i: nat)
    requires i < |Patterns|
    ensures Rank(Patterns[i].currency) == i
  {
    if i == 0 { assert Patterns[0].currency == USD; }
    else if i == 1 { assert Patterns[1].currency == EUR; }
    else if i == 2 { assert Patterns[2].currency == GBP; }
    else if i == 3 { assert Patterns[3].currency == CAD; }
    else if i == 4 { assert Patterns[4].currency == AUD; }
    else { assert Patterns[5].currency == JPY; }
  }

  /** A match starts before the end of the text: every marker is non-empty. */
  lemma {:induction false} MatchNeedsText(markers: seq<Marker>, s: string, p: nat, fraction: bool)
    requires MarkersAt(markers, s, p, fraction).Some?
    ensures p < |s|
  {
    var ends := MarkerEnds(markers[0], s, p);
    if FirstAmount(s, ends, fraction).None? {
      MatchNeedsText(markers[1..], s, p, fraction);
    } else {
      assert ends != [] && p < ends[0] <= |s|;
    }
  }

  // ---------------------------------------------------------------------
  // A bare dollar sign belongs to the USD pattern.

  /** A `$` followed (after optional whitespace) by a digit makes the text
      USD, so "C$100" and "A$100" are read as US dollars. */
  lemma DollarMeansUsd(s: string, k: nat)
    requires k < |s| && s[k] == '$' && AmountAt(s, k + 1, true).Some?
    ensures ParsePrice(s).Some? && ParsePrice(s).value.currency == USD
  {
    var usd := Patterns[0];
    assert usd.markers == [Literal("usd"), UsDollar, Literal("$")];
    NotLiteralAt(s, k, "usd");
    NotLiteralAt(s, k, "us");
    assert LiteralAt(s, k, "$");
    assert MarkerEnds(usd.markers[2], s, k) == [k + 1];
    assert MarkersAt(usd.markers[2..], s, k, true).Some?;
    assert MarkersAt(usd.markers[1..], s, k, true).Some? by {
      assert usd.markers[1..][1..] == usd.markers[2..];
    }
    assert MatchAt(usd, s, k).Some?;
    SearchLeftmost(usd, s);
    FirstMatchIs(Patterns, s, 0);
  }

  lemma NotLiteralAt(s: string, p: nat, w: string)
    requires |w| > 0 && p < |s| && Fold(s[p]) != w[0]
    ensures !LiteralAt(s, p, w)
  {
    if p + |w| <= |s| {
      assert Fold(s[p + 0]) != w[0];
    }
  }

  /** CAD and AUD are reached only when no `$` in the text is followed by an
      amount. */
  lemma CanadianOrAustralianMeansNoDollarAmount(s: string, k: nat)
    requires ParsePrice(s).Some? && ParsePrice(s).value.currency in {CAD, AUD}
    requires k < |s| && s[k] == '$'
    ensures AmountAt(s, k + 1, true).None?
  {
    if AmountAt(s, k + 1, true).Some? {
      DollarMeansUsd(s, k);
    }
  }

  // ---------------------------------------------------------------------
  // The amount is always a number: the `ValueError` branch is dead code.

  lemma {:induction false} RemoveCommasAppend(a: string, b: string)
    ensures RemoveCommas(a + b) == RemoveCommas(a) + RemoveCommas(b)
  {
    if a != [] {
      var x := if a[0] == ',' then [] else [a[0]];
      assert (a + b)[0] == a[0];
      assert (a + b)[1..] == a[1..] + b;
      RemoveCommasAppend(a[1..], b);
      calc {
        RemoveCommas(a + b);
        x + RemoveCommas(a[1..] + b);
        x + (RemoveCommas(a[1..]) + RemoveCommas(b));
        (x + RemoveCommas(a[1..])) + RemoveCommas(b);
        RemoveCommas(a) + RemoveCommas(b);
      }
    } else {
      assert a + b == b;
    }
  }

  lemma {:induction false} RemoveCommasDigits(a: string)
    requires DigitsCommas(a)
    ensures AllDigits(RemoveCommas(a))
    ensures |a| > 0 && IsDigit(a[0]) ==> |RemoveCommas(a)| > 0
  {
    if a != [] {
      RemoveCommasDigits(a[1..]);
    }
  }

  lemma {:induction false} RemoveCommasFree(a: string)
    requires forall i :: 0 <= i < |a| ==> a[i] != ','
    ensures RemoveCommas(a) == a
  {
    if a != [] {
      RemoveCommasFree(a[1..]);
    }
  }

  /** Dropping the one comma between two comma-free parts. */
  lemma {:induction false} RemoveOneComma(a: string, b: string)
    requires forall i :: 0 <= i < |a| ==> a[i] != ','
    requires forall i :: 0 <= i < |b| ==> b[i] != ','
    ensures RemoveCommas(a + "," + b) == a + b
  {
    if a == [] {
      assert a + "," + b == [','] + b;
      assert ([','] + b)[1..] == b;
      RemoveCommasFree(b);
    } else {
      assert (a + "," + b)[1..] == a[1..] + "," + b;
      RemoveOneComma(a[1..], b);
      assert a == [a[0]] + a[1..];
    }
  }

  /** Whatever a pattern captures has the shape of an amount. */
  lemma {:induction false} MarkersAtIsCapture(markers: seq<Marker>, s: string, p: nat, fraction: bool)
    requires MarkersAt(markers, s, p, fraction).Some?
    ensures IsCapture(MarkersAt(markers, s, p, fraction).value, fraction)
  {
    if FirstAmount(s, MarkerEnds(markers[0], s, p), fraction).None? {
      MarkersAtIsCapture(markers[1..], s, p, fraction);
    }
  }

  /** Removing the commas from a captured amount leaves a numeral; without a
      fraction it leaves digits only. */
  lemma CaptureIsNumeral(a: string, fraction: bool)
    requires IsCapture(a, fraction)
    ensures IsNumeral(RemoveCommas(a))
    ensures !fraction ==> AllDigits(RemoveCommas(a))
  {
    if DigitsCommas(a) {
      RemoveCommasDigits(a);
    } else {
      FractionCaptureIsNumeral(a[..|a| - 3], a[|a| - 2..]);
      assert a == a[..|a| - 3] + ([a[|a| - 3]] + a[|a| - 2..]);
    }
  }

  /** Digits and commas starting with a digit, then `.` and two digits. */
  lemma FractionCaptureIsNumeral(head: string, cents: string)
    requires |head| > 0 && IsDigit(head[0]) && DigitsCommas(head)
    requires |cents| == 2 && AllDigits(cents)
    ensures IsNumeral(RemoveCommas(head + (['.'] + cents)))
  {
    var tail := ['.'] + cents;
    RemoveCommasAppend(head, tail);
    RemoveCommasDigits(head);
    RemoveCommasFree(tail);
    var r, t := RemoveCommas(head), RemoveCommas(head + tail);
    assert t == r + tail;
    assert t[..|t| - 3] == r;
    assert t[|t| - 2..] == cents;
  }

  /** Every parsed price carries a number, never the raw-text fallback, and a
      yen amount is always whole. */
  lemma ParsedAmountIsNumber(s: string)
    requires ParsePrice(s).Some?
    ensures ParsePrice(s).value.amount.Number?
    ensures ParsePrice(s).value.currency == JPY ==> ParsePrice(s).value.amount.hundredths % 100 == 0
  {
    ParsePriceWinner(s);
    var c := ParsePrice(s).value.currency;
    var pat := Patterns[Rank(c)];
    var h := Search(pat, s).value;
    SearchLeftmost(pat, s);
    MarkersAtIsCapture(pat.markers, s, h.pos, pat.fraction);
    CaptureIsNumeral(h.amount, pat.fraction);
  }

  // ---------------------------------------------------------------------
  // The markers are matched ignoring case; nothing else depends on case.

  /** `s` and `t` differ at most in the case of their letters. */
  predicate SameIgnoringCase(s: string, t: string) {
    |s| == |t| && forall i :: 0 <= i < |s| ==> Fold(s[i]) == Fold(t[i])
  }

  lemma SameWhereCaseless(s: string, t: string, i: nat)
    requires SameIgnoringCase(s, t) && i < |s|
    requires Caseless(s[i]) || Caseless(t[i])
    ensures s[i] == t[i]
  {
    if Caseless(s[i]) {
      CaselessMatchesOnlyItself(s[i], t[i]);
    } else {
      CaselessMatchesOnlyItself(t[i], s[i]);
    }
  }

  lemma {:induction false} SkipSpacesIgnoresCase(s: string, t: string, q: nat)
    requires SameIgnoringCase(s, t) && q <= |s|
    ensures SkipSpaces(s, q) == SkipSpaces(t, q)
    decreases |s| - q
  {
    if q < |s| {
      if IsSpace(s[q]) || IsSpace(t[q]) { SameWhereCaseless(s, t, q); }
      if IsSpace(s[q]) { SkipSpacesIgnoresCase(s, t, q + 1); }
    }
  }

  lemma {:induction false} SkipDigitsCommasIgnoresCase(s: string, t: string, q: nat)
    requires SameIgnoringCase(s, t) && q <= |s|
    ensures SkipDigitsCommas(s, q) == SkipDigitsCommas(t, q)
    decreases |s| - q
  {
    if q < |s| {
      if IsDigit(s[q]) || s[q] == ',' || IsDigit(t[q]) || t[q] == ',' { SameWhereCaseless(s, t, q); }
      if IsDigit(s[q]) || s[q] == ',' { SkipDigitsCommasIgnoresCase(s, t, q + 1); }
    }
  }

  lemma AmountAtIgnoresCase(s: string, t: string, q: nat, fraction: bool)
    requires SameIgnoringCase(s, t) && q <= |s|
    ensures AmountAt(s, q, fraction) == AmountAt(t, q, fraction)
  {
    SkipSpacesIgnoresCase(s, t, q);
    var d := SkipSpaces(s, q);
    if d < |s| {
      if IsDigit(s[d]) || IsDigit(t[d]) { SameWhereCaseless(s, t, d); }
      if IsDigit(s[d]) { CaptureIgnoresCase(s, t, d, fraction); }
    }
  }

  /** The amount captured from a digit at `d` is the same in both strings. */
  lemma CaptureIgnoresCase(s: string, t: string, d: nat, fraction: bool)
    requires SameIgnoringCase(s, t) && d < |s| && IsDigit(s[d])
    ensures var f := FractionEnd(s, SkipDigitsCommas(s, d + 1), fraction);
            && f == FractionEnd(t, SkipDigitsCommas(t, d + 1), fraction)
            && s[d..f] == t[d..f]
  {
    SkipDigitsCommasIgnoresCase(s, t, d + 1);
    var e := SkipDigitsCommas(s, d + 1);
    FractionEndIgnoresCase(s, t, e, fraction);
    CaptureCaseless(s, d, e, fraction);
    SliceIgnoresCase(s, t, d, FractionEnd(s, e, fraction));
  }

  lemma CaptureCaseless(s: string, d: nat, e: nat, fraction: bool)
    requires d < e <= |s| && IsDigit(s[d])
    requires forall k :: d < k < e ==> IsDigit(s[k]) || s[k] == ','
    ensures forall k :: d <= k < FractionEnd(s, e, fraction) ==> Caseless(s[k])
  {
  }

  lemma FractionEndIgnoresCase(s: string, t: string, e: nat, fraction: bool)
    requires SameIgnoringCase(s, t) && e <= |s|
    ensures FractionEnd(s, e, fraction) == FractionEnd(t, e, fraction)
  {
    if e + 3 <= |s| {
      if s[e] == '.' || t[e] == '.' { SameWhereCaseless(s, t, e); }
      if IsDigit(s[e + 1]) || IsDigit(t[e + 1]) { SameWhereCaseless(s, t, e + 1); }
      if IsDigit(s[e + 2]) || IsDigit(t[e + 2]) { SameWhereCaseless(s, t, e + 2); }
    }
  }

  /** A stretch of caseless characters reads the same in both strings. */
  lemma SliceIgnoresCase(s: string, t: string, d: nat, f: nat)
    requires SameIgnoringCase(s, t) && d <= f <= |s|
    requires forall k :: d <= k < f ==> Caseless(s[k])
    ensures s[d..f] == t[d..f]
  {
    forall k | d <= k < f ensures s[k] == t[k] { SameWhereCaseless(s, t, k); }
  }

  lemma LiteralAtIgnoresCase(s: string, t: string, p: nat, w: string)
    requires SameIgnoringCase(s, t)
    ensures LiteralAt(s, p, w) == LiteralAt(t, p, w)
  {
  }

  lemma MarkerEndsIgnoreCase(m: Marker, s: string, t: string, p: nat)
    requires SameIgnoringCase(s, t)
    ensures MarkerEnds(m, s, p) == MarkerEnds(m, t, p)
  {
    match m
    case Literal(w) => LiteralAtIgnoresCase(s, t, p, w);
    case UsDollar =>
      LiteralAtIgnoresCase(s, t, p, "us");
      if p + 2 < |s| && (IsSpace(s[p + 2]) || IsSpace(t[p + 2]) || s[p + 2] == '$' || t[p + 2] == '$') {
        SameWhereCaseless(s, t, p + 2);
      }
      if p + 3 < |s| && (s[p + 3] == '$' || t[p + 3] == '$') {
        SameWhereCaseless(s, t, p + 3);
      }
  }

  lemma {:induction false} FirstAmountIgnoresCase(s: string, t: string, ends: seq<nat>, fraction: bool)
    requires SameIgnoringCase(s, t)
    requires forall i :: 0 <= i < |ends| ==> ends[i] <= |s|
    ensures FirstAmount(s, ends, fraction) == FirstAmount(t, ends, fraction)
  {
    if ends != [] {
      AmountAtIgnoresCase(s, t, ends[0], fraction);
      FirstAmountIgnoresCase(s, t, ends[1..], fraction);
    }
  }

  lemma {:induction false} MarkersAtIgnoresCase(markers: seq<Marker>, s: string, t: string, p: nat, fraction: bool)
    requires SameIgnoringCase(s, t)
    ensures MarkersAt(markers, s, p, fraction) == MarkersAt(markers, t, p, fraction)
  {
    if markers != [] {
      MarkerEndsIgnoreCase(markers[0], s, t, p);
      FirstAmountIgnoresCase(s, t, MarkerEnds(markers[0], s, p), fraction);
      MarkersAtIgnoresCase(markers[1..], s, t, p, fraction);
    }
  }

  lemma SearchIgnoresCase(pat: Pattern, s: string, t: string)
    requires SameIgnoringCase(s, t)
    ensures Search(pat, s) == Search(pat, t)
  {
    forall q | 0 <= q <= |s| ensures MatchAt(pat, s, q) == MatchAt(pat, t, q) {
      MarkersAtIgnoresCase(pat.markers, s, t, q, pat.fraction);
    }
    FirstHitSame(Matcher(pat, s), Matcher(pat, t), 0, |s|);
  }

  lemma {:induction false} FirstMatchIgnoresCase(pats: seq<Pattern>, s: string, t: string)
    requires SameIgnoringCase(s, t)
    ensures FirstMatch(pats, s) == FirstMatch(pats, t)
  {
    if pats != [] {
      SearchIgnoresCase(pats[0], s, t);
      FirstMatchIgnoresCase(pats[1..], s, t);
    }
  }

  /** Two texts that differ only in the case of their letters parse alike:
      "usd 50", "USD 50" and "Usd 50" give the same result. */
  lemma ParsePriceIgnoresCase(s: string, t: string)
    requires SameIgnoringCase(s, t)
    ensures ParsePrice(s) == ParsePrice(t)
  {
    FirstMatchIgnoresCase(Patterns, s, t);
  }

  // ---------------------------------------------------------------------
  // Where no marker can start, nothing matches.

  /** Marker `m` can begin with a character that folds to `c`. */
  predicate CanStart(m: Marker, c: char) {
    match m
    case Literal(w) => w != [] && c == w[0]
    case UsDollar => c == 'u'
  }

  lemma MarkerEndsNeedStart(m: Marker, s: string, p: nat)
    requires p >= |s| || !CanStart(m, Fold(s[p]))
    ensures MarkerEnds(m, s, p) == []
  {
    match m
    case Literal(w) =>
      if w != [] && p < |s| { NotLiteralAt(s, p, w); }
    case UsDollar =>
      if p < |s| { NotLiteralAt(s, p, "us"); }
  }

  lemma {:induction false} MarkersAtNeedStart(markers: seq<Marker>, s: string, p: nat, fraction: bool)
    requires forall i :: 0 <= i < |markers| ==> p >= |s| || !CanStart(markers[i], Fold(s[p]))
    ensures MarkersAt(markers, s, p, fraction).None?
  {
    if markers != [] {
      MarkerEndsNeedStart(markers[0], s, p);
      MarkersAtNeedStart(markers[1..], s, p, fraction);
    }
  }

  /** A pattern none of whose markers can begin anywhere in `s` finds nothing. */
  lemma SearchNeedsStart(pat: Pattern, s: string)
    requires forall i, j :: 0 <= i < |s| && 0 <= j < |pat.markers| ==> !CanStart(pat.markers[j], Fold(s[i]))
    ensures Search(pat, s).None?
  {
    forall q | 0 <= q <= |s| ensures MatchAt(pat, s, q).None? {
      MarkersAtNeedStart(pat.markers, s, q, pat.fraction);
    }
    SearchLeftmost(pat, s);
  }

  /** The characters a marker can begin with, once folded. */
  predicate IsMarkerStart(c: char) {
    c == 'u' || c == '$' || c == 'e' || c == Euro || c == 'g' || c == Pound
    || c == 'c' || c == 'a' || c == 'j' || c == Yen
  }

  lemma PatternStarts(k: nat, j: nat, c: char)
    requires k < |Patterns| && j < |Patterns[k].markers| && CanStart(Patterns[k].markers[j], c)
    ensures IsMarkerStart(c)
  {
  }

  /** Text in which no currency marker can begin never parses. */
  lemma NoMarkerNoPrice(s: string)
    requires forall i :: 0 <= i < |s| ==> !IsMarkerStart(Fold(s[i]))
    ensures ParsePrice(s).None?
  {
    forall c ensures Search(Patterns[Rank(c)], s).None? {
      var k := Rank(c);
      forall i, j | 0 <= i < |s| && 0 <= j < |Patterns[k].markers|
        ensures !CanStart(Patterns[k].markers[j], Fold(s[i]))
      {
        if CanStart(Patterns[k].markers[j], Fold(s[i])) { PatternStarts(k, j, Fold(s[i])); }
      }
      SearchNeedsStart(Patterns[k], s);
    }
    ParsePriceNone(s);
  }

  /** A match at the very start of the text by pattern `k`, when no pattern
      before `k` matches anywhere, is the result. */
  lemma MatchAtStart(s: string, k: nat)
    requires k < |Patterns| && MatchAt(Patterns[k], s, 0).Some?
    requires forall j :: 0 <= j < k ==> Search(Patterns[j], s).None?
    ensures ParsePrice(s)
         == Some(PriceMatch(Patterns[k].currency, ToAmount(RemoveCommas(MatchAt(Patterns[k], s, 0).value))))
  {
    MatchNeedsText(Patterns[k].markers, s, 0, Patterns[k].fraction);
    FirstMatchIs(Patterns, s, k);
  }
}
