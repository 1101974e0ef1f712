/**
  Where matches come from: the four fallback patterns, whose matches cannot be mistaken for part of
  a placeholder, and the analyzer's spans, which are cut out of the text from right to left.
*/
module AnonymizerSources {
  import opened Anonymizer
  import opened AnonymizerTokens
  import opened AnonymizerRoundTrip

  // ---------- The fallback patterns ----------

  // The patterns' \d also matches digits outside ASCII.
  predicate IsDigit(c: char) {
    '0' <= c <= '9' || c as int >= 0x80
  }

  /** An e-mail match contains '@'; the other three patterns end in nine digits; none has brackets. */
  predicate PatternMatch(m: string) {
    && NoAngles(m)
    && ('@' in m || (|m| >= 9 && forall i | |m| - 9 <= i < |m| :: IsDigit(m[i])))
  }

  function PowerOfTen(k: nat): nat {
    if k == 0 then 1 else 10 * PowerOfTen(k - 1)
  }

  lemma {:induction false} DecimalLength(n: nat, k: nat)
    requires n < PowerOfTen(k) && k >= 1
    ensures |Decimal(n)| <= k
  {
    if n >= 10 {
      assert k > 1;
      DecimalLength(n / 10, k - 1);
    }
  }

  lemma NoPatternInPlaceholder(entity: string, n: nat, m: string)
    requires entity in ENTITIES && n < PowerOfTen(8) && PatternMatch(m)
    ensures !Occurs(m, Placeholder(entity, n))
  {
    var p := Placeholder(entity, n);
    DecimalDigits(n);
    DecimalLength(n, 8);
    assert forall i | 0 <= i < |entity| :: !IsDigit(entity[i]) && entity[i] != '@' by {
      assert entity == "EMAIL" || entity == "PHONE" || entity == "AFM" || entity == "IBAN_PARTIAL";
    }
    forall i | 0 <= i < |p| ensures p[i] != '@' && (IsDigit(p[i]) ==> |p| - 9 <= i < |p| - 1) {
      if 1 <= i <= |entity| {
        assert p[i] == entity[i - 1];
      }
    }
    NineDigits(p, m);
  }

  lemma NineDigits(p: string, m: string)
    requires PatternMatch(m)
    requires forall i | 0 <= i < |p| :: p[i] != '@' && (IsDigit(p[i]) ==> |p| - 9 <= i < |p| - 1)
    ensures !Occurs(m, p)
  {
    forall i | 0 <= i <= |p| ensures !(m <= p[i..]) {
      assert forall j | 0 <= j < |p| - i :: p[i..][j] == p[i + j];
      assert |m| >= 9 && |m| <= |p| - i ==> p[i..][|m| - 9] == p[i + |m| - 9] && p[i..][|m| - 1] == p[i + |m| - 1];
    }
  }

  lemma {:induction false} DecimalIsLong(n: nat, k: nat)
    requires n >= PowerOfTen(k)
    ensures |Decimal(n)| > k
  {
    if k > 0 {
      assert n / 10 >= PowerOfTen(k - 1);
      DecimalIsLong(n / 10, k - 1);
    }
  }

  /** From the hundred-millionth placeholder on, its counter itself looks like a match. */
  lemma NineDigitCounters(entity: string, n: nat)
    requires n >= PowerOfTen(8)
    ensures PatternMatch(Decimal(n)) && Occurs(Decimal(n), Placeholder(entity, n))
  {
    DecimalIsLong(n, 8);
    DecimalDigits(n);
    var p := Placeholder(entity, n);
    assert p[|entity| + 2..] == Decimal(n) + ">";
  }

  lemma {:induction false} FlattenMembers(found: seq<seq<string>>, find: Find)
    requires |found| <= |ENTITIES| && find in Flatten(found)
    ensures find.entity in ENTITIES && exists p :: 0 <= p < |found| && find.original in found[p]
  {
    if found != [] && find in Flatten(found[..|found| - 1]) {
      FlattenMembers(found[..|found| - 1], find);
    }
  }

  lemma EntityNoAngles(entity: string)
    requires entity in ENTITIES
    ensures NoAngles(entity)
  {
    assert NoAngles("EMAIL") && NoAngles("PHONE") && NoAngles("AFM") && NoAngles("IBAN_PARTIAL");
  }

  /**
    The fallback round trip: for matches of the four patterns, at most a hundred million of them,
    the text comes back if and only if it contains none of the issued placeholders.
  */
  lemma FallbackRoundTrip(text: string, found: seq<seq<string>>)
    requires |found| == |ENTITIES| && |Flatten(found)| <= PowerOfTen(8)
    requires forall p, i | 0 <= p < |found| && 0 <= i < |found[p]| :: PatternMatch(found[p][i])
    ensures RoundTrip(text, Flatten(found)) == text
            <==> forall k | 0 <= k < |Flatten(found)| :: !Occurs(Issued(Flatten(found), k), text)
  {
    var finds := Flatten(found);
    forall k | 0 <= k < |finds|
      ensures finds[k].entity in ENTITIES && NoAngles(finds[k].entity) && PatternMatch(finds[k].original)
    {
      FlattenMembers(found, finds[k]);
      EntityNoAngles(finds[k].entity);
    }
    forall j, k | 0 <= j < |finds| && 0 <= k < |finds| ensures !Occurs(finds[j].original, Issued(finds, k)) {
      NoPatternInPlaceholder(finds[k].entity, k, finds[j].original);
    }
    RoundTripExactly(text, finds);
  }

  // ---------- The analyzer's spans ----------

  datatype Span = Span(entity: string, start: nat, end: nat)

  // Python slices, which stop at the end of the string.
  function Take(s: string, n: nat): string {
    if n <= |s| then s[..n] else s
  }

  function Drop(s: string, n: nat): string {
    if n <= |s| then s[n..] else ""
  }

  // The text after the first n spans, and what they were replaced for.
  function SpanText(text: string, spans: seq<Span>, n: nat): string
    requires n <= |spans|
  {
    if n == 0 then text
    else
      var before, span := SpanText(text, spans, n - 1), spans[n - 1];
      Take(before, span.start) + Placeholder(span.entity, n - 1) + Drop(before, span.end)
  }

  function Original(text: string, spans: seq<Span>, k: nat): string
    requires k < |spans|
  {
    Drop(Take(SpanText(text, spans, k), spans[k].end), spans[k].start)
  }

  function SpanFinds(text: string, spans: seq<Span>): (finds: seq<Find>)
    ensures |finds| == |spans|
  {
    seq(|spans|, k requires 0 <= k < |spans| => Find(spans[k].entity, Original(text, spans, k)))
  }

  // The first n spans are replaced and remembered.
  ghost predicate Replaced(text: string, spans: seq<Span>, n: nat, result: string, mapping: seq<(string, string)>) {
    && n <= |spans|
    && result == SpanText(text, spans, n)
    && mapping == MappingOf(SpanFinds(text, spans))[..n]
  }

  lemma MappingAt(text: string, spans: seq<Span>, n: nat)
    requires n < |spans|
    ensures MappingOf(SpanFinds(text, spans))[n] == (Placeholder(spans[n].entity, n), Original(text, spans, n))
  {
    var finds := SpanFinds(text, spans);
    assert finds[n] == Find(spans[n].entity, Original(text, spans, n));
  }

  lemma PrefixGrows<T>(all: seq<T>, n: nat)
    requires n < |all|
    ensures all[..n + 1] == all[..n] + [all[n]]
  {
  }

  lemma ReplacedStep(text: string, spans: seq<Span>, n: nat, result: string, mapping: seq<(string, string)>)
    requires n < |spans| && Replaced(text, spans, n, result, mapping)
    ensures var span, placeholder := spans[n], Placeholder(spans[n].entity, n);
            var original := Drop(Take(result, span.end), span.start);
            Replaced(text, spans, n + 1, Take(result, span.start) + placeholder + Drop(result, span.end),
                     mapping + [(placeholder, original)])
  {
    MappingAt(text, spans, n);
    PrefixGrows(MappingOf(SpanFinds(text, spans)), n);
  }

  /** The analyzer branch of sanitize_pii; the spans come sorted by decreasing start. */
  method SanitizeSpans(text: string, spans: seq<Span>) returns (result: string, mapping: seq<(string, string)>)
    ensures result == SpanText(text, spans, |spans|) && mapping == MappingOf(SpanFinds(text, spans))
  {
    result, mapping := text, [];
    var counter := 0;
    while counter < |spans|
      invariant Replaced(text, spans, counter, result, mapping)
    {
      ReplacedStep(text, spans, counter, result, mapping);
      var span := spans[counter];
      var original := Drop(Take(result, span.end), span.start);
      var placeholder := Placeholder(span.entity, counter);
      mapping := mapping + [(placeholder, original)];
      result := Take(result, span.start) + placeholder + Drop(result, span.end);
      counter := counter + 1;
    }
    ghost var all := MappingOf(SpanFinds(text, spans));
    assert all[..|spans|] == all;
  }

  // Spans of the text, right to left, that do not overlap.
  ghost predicate Disjoint(spans: seq<Span>, length: nat) {
    && (forall k | 0 <= k < |spans| :: spans[k].start <= spans[k].end <= length)
    && (forall j, k | 0 <= j < k < |spans| :: spans[k].end <= spans[j].start)
  }

  function LeftEnd(spans: seq<Span>, length: nat, n: nat): nat
    requires n <= |spans|
  {
    if n == 0 then length else spans[n - 1].start
  }

  lemma PieceAt(text: string, spans: seq<Span>, k: nat)
    requires k < |spans|
    ensures PlaceholdersOf(SpanFinds(text, spans))[k] == Placeholder(spans[k].entity, k)
    ensures MatchesOf(SpanFinds(text, spans))[k] == Original(text, spans, k)
  {
    var finds := SpanFinds(text, spans);
    assert finds[k] == Find(spans[k].entity, Original(text, spans, k));
  }

  lemma {:induction false} SpanTokens(text: string, spans: seq<Span>, n: nat) returns (tokens: Tokens)
    requires Disjoint(spans, |text|) && n <= |spans|
    requires forall k | 0 <= k < |spans| :: NoAngles(spans[k].entity)
    ensures HolesBelow(tokens, n)
    ensures Spell(tokens, PlaceholdersOf(SpanFinds(text, spans))) == SpanText(text, spans, n)
    ensures Spell(tokens, MatchesOf(SpanFinds(text, spans))) == text
    ensures RawOf(text[..LeftEnd(spans, |text|, n)]) <= tokens
  {
    var finds := SpanFinds(text, spans);
    var ps, ms := PlaceholdersOf(finds), MatchesOf(finds);
    if n == 0 {
      tokens := RawOf(text);
      SpellRaw(text, ps);
      SpellRaw(text, ms);
      assert text[..LeftEnd(spans, |text|, 0)] == text;
    } else {
      var before := SpanTokens(text, spans, n - 1);
      var a, b := spans[n - 1].start, spans[n - 1].end;
      assert b <= LeftEnd(spans, |text|, n - 1);
      PieceAt(text, spans, n - 1);
      tokens := CutSpan(before, text, LeftEnd(spans, |text|, n - 1), a, b, n - 1, ps, ms);
    }
  }

  // Cutting a raw stretch out of the tokens.
  lemma CutSpan(before: Tokens, text: string, left: nat, a: nat, b: nat, k: nat, ps: seq<string>, ms: seq<string>)
    returns (tokens: Tokens)
    requires a <= b <= left <= |text| && k < |ps| == |ms| && HolesBelow(before, k)
    requires RawOf(text[..left]) <= before && Spell(before, ms) == text
    requires ms[k] == Drop(Take(Spell(before, ps), b), a)
    ensures HolesBelow(tokens, k + 1) && RawOf(text[..a]) <= tokens
    ensures Spell(tokens, ps) == Take(Spell(before, ps), a) + ps[k] + Drop(Spell(before, ps), b)
    ensures Spell(tokens, ms) == text
  {
    RawSplit(before, text, left, a, b);
    tokens := RawOf(text[..a]) + ([Hole(k)] + before[b..]);
    CutHoles(text[..a], k, before, b);
    CutSpelling(text[..a], text[a..b], before[b..], k, ps);
    CutSpelling(text[..a], text[a..b], before[b..], k, ms);
    PutBack(text, a, b);
  }

  lemma CutHoles(x: string, k: nat, before: Tokens, b: nat)
    requires b <= |before| && HolesBelow(before, k)
    ensures HolesBelow(before, k + 1) && HolesBelow(RawOf(x) + ([Hole(k)] + before[b..]), k + 1)
  {
  }

  lemma PutBack(text: string, a: nat, b: nat)
    requires a <= b <= |text|
    ensures Take(text, a) + text[a..b] + Drop(text, b) == text
  {
  }

  lemma CutSpelling(x: string, y: string, rest: Tokens, k: nat, pieces: seq<string>)
    requires k < |pieces| && HolesBelow(rest, |pieces|)
    ensures var spelling := Spell(RawOf(x) + (RawOf(y) + rest), pieces);
            && Spell(RawOf(x) + ([Hole(k)] + rest), pieces)
               == Take(spelling, |x|) + pieces[k] + Drop(spelling, |x + y|)
            && Drop(Take(spelling, |x + y|), |x|) == y
  {
    SpellThree(x, y, rest, pieces);
    SpellHole(x, k, rest, pieces);
    CutString(x, y, Spell(rest, pieces), pieces[k]);
  }

  lemma CutString(x: string, y: string, z: string, p: string)
    ensures var s := x + (y + z);
            && x + (p + z) == Take(s, |x|) + p + Drop(s, |x + y|)
            && Drop(Take(s, |x + y|), |x|) == y
  {
    SliceThree(x, y, z);
    assert x + (p + z) == x + p + z;
  }

  lemma RawSplit(before: Tokens, text: string, left: nat, a: nat, b: nat)
    requires a <= b <= left <= |text| && RawOf(text[..left]) <= before
    ensures b <= |before| && before == RawOf(text[..a]) + (RawOf(text[a..b]) + before[b..])
  {
    assert before[..left] == RawOf(text[..left]);
    assert RawOf(text[..left])[..b] == RawOf(text[..a]) + RawOf(text[a..b]);
    assert before[..b] == RawOf(text[..left])[..b];
  }

  lemma SliceThree(x: string, y: string, z: string)
    ensures var s := x + (y + z);
            Take(s, |x|) == x && Drop(s, |x + y|) == z && Drop(Take(s, |x + y|), |x|) == y
  {
    var s := x + (y + z);
    assert s[..|x + y|] == x + y;
  }

  lemma SpellThree(x: string, y: string, rest: Tokens, pieces: seq<string>)
    requires HolesBelow(rest, |pieces|)
    ensures Spell(RawOf(x) + (RawOf(y) + rest), pieces) == x + (y + Spell(rest, pieces))
  {
    SpellConcat(RawOf(x), RawOf(y) + rest, pieces);
    SpellConcat(RawOf(y), rest, pieces);
    SpellRaw(x, pieces);
    SpellRaw(y, pieces);
  }

  lemma SpellHole(x: string, k: nat, rest: Tokens, pieces: seq<string>)
    requires HolesBelow(rest, |pieces|) && k < |pieces|
    ensures Spell(RawOf(x) + ([Hole(k)] + rest), pieces) == x + (pieces[k] + Spell(rest, pieces))
  {
    SpellConcat(RawOf(x), [Hole(k)] + rest, pieces);
    SpellConcat([Hole(k)], rest, pieces);
    SpellRaw(x, pieces);
    SpellOne(Hole(k), pieces);
  }

  /** Earlier cuts do not move later ones: what a span replaces is what it covers in the text. */
  lemma SpanCoversText(text: string, spans: seq<Span>, k: nat)
    requires Disjoint(spans, |text|) && k < |spans| && forall i | 0 <= i < |spans| :: NoAngles(spans[i].entity)
    ensures Original(text, spans, k) == text[spans[k].start..spans[k].end]
  {
    var ps, a, b := PlaceholdersOf(SpanFinds(text, spans)), spans[k].start, spans[k].end;
    var tokens := SpanTokens(text, spans, k);
    RawSplit(tokens, text, LeftEnd(spans, |text|, k), a, b);
    CutSpelling(text[..a], text[a..b], tokens[b..], k, ps);
  }

  /**
    The span round trip, for spans that do not overlap: the text comes back if it contains none of
    the issued placeholders. When moreover the covered texts are as the patterns' matches are, the
    text comes back only then.
  */
  lemma SpanRoundTrip(text: string, spans: seq<Span>)
    requires Disjoint(spans, |text|) && forall k | 0 <= k < |spans| :: NoAngles(spans[k].entity)
    ensures var finds := SpanFinds(text, spans);
            var restored := Decode(SpanText(text, spans, |spans|), MappingOf(finds), |spans|) == text;
            var absent := forall k | 0 <= k < |spans| :: !Occurs(Issued(finds, k), text);
            && (absent ==> restored)
            && (Plain(finds) && restored ==> absent)
  {
    var finds := SpanFinds(text, spans);
    var tokens := SpanTokens(text, spans, |spans|);
    if forall k | 0 <= k < |spans| :: !Occurs(Issued(finds, k), text) {
      DecodesIfAbsent(tokens, finds);
    } else if Plain(finds) {
      DecodesExactly(tokens, finds);
    }
  }

  // ---------- What fails ----------

  lemma OneEmailIsPlain()
    ensures Plain([Find("EMAIL", "a@b.cc")])
  {
    assert PatternMatch("a@b.cc") by { assert "a@b.cc"[1] == '@'; }
    assert ENTITIES[0] == "EMAIL" && NoAngles("EMAIL");
    NoPatternInPlaceholder("EMAIL", 0, "a@b.cc");
  }

  lemma PrefixOccurs(p: string, more: string)
    ensures Occurs(p, p + more)
  {
    assert (p + more)[0..] == p + more;
  }

  /** A text that spells out the first e-mail placeholder next to an address does not come back. */
  lemma SpelledOutPlaceholderIsLost()
    ensures var text, finds := Placeholder("EMAIL", 0) + " a@b.cc", [Find("EMAIL", "a@b.cc")];
            RoundTrip(text, finds) != text
  {
    var placeholder, finds := Placeholder("EMAIL", 0), [Find("EMAIL", "a@b.cc")];
    OneEmailIsPlain();
    PrefixOccurs(placeholder, " a@b.cc");
    assert Issued(finds, 0) == placeholder;
    RoundTripExactly(placeholder + " a@b.cc", finds);
  }

  lemma {:induction false} AbsentUnchanged(s: string, p: string, r: string)
    requires p != "" && !Occurs(p, s)
    ensures ReplaceAll(s, p, r) == s
  {
    assert s[0..] == s;
    if s != "" {
      forall i | 0 <= i <= |s[1..]| ensures !(p <= s[1..][i..]) { assert s[1..][i..] == s[i + 1..]; }
      AbsentUnchanged(s[1..], p, r);
    }
  }

  const OVERLAPPING: seq<Span> := [Span("X", 1, 2), Span("Y", 0, 2)]

  lemma OverlappingMapping()
    ensures SpanText("ab", OVERLAPPING, 2) == "<Y_1>X_0>"
    ensures MappingOf(SpanFinds("ab", OVERLAPPING)) == [("<X_0>", "b"), ("<Y_1>", "a<")]
  {
    assert Placeholder("X", 0) == "<X_0>" by { assert Decimal(0) == "0"; }
    assert Placeholder("Y", 1) == "<Y_1>" by { assert Decimal(1) == "1"; }
    assert SpanText("ab", OVERLAPPING, 1) == "a<X_0>" by { assert SpanText("ab", OVERLAPPING, 0) == "ab"; }
    assert SpanText("ab", OVERLAPPING, 2) == "<Y_1>X_0>" by { assert "a<X_0>"[2..] == "X_0>"; }
    assert Original("ab", OVERLAPPING, 0) == "b" && Original("ab", OVERLAPPING, 1) == "a<";
  }

  // An occurrence would have to start at the first character of p.
  lemma NotInside(s: string, p: string)
    requires p != "" && forall i | 0 <= i < |s| && s[i] == p[0] :: !(p <= s[i..])
    ensures !Occurs(p, s)
  {
    forall i | 0 <= i <= |s| ensures !(p <= s[i..]) {
      if i < |s| && s[i] != p[0] {
        assert s[i..][0] == s[i];
      }
    }
  }

  lemma FirstStays()
    ensures ReplaceAll("<Y_1>X_0>", "<X_0>", "b") == "<Y_1>X_0>"
  {
    assert "<Y_1>X_0>"[0..][1] == 'Y';
    NotInside("<Y_1>X_0>", "<X_0>");
    AbsentUnchanged("<Y_1>X_0>", "<X_0>", "b");
  }

  lemma SecondReturns()
    ensures ReplaceAll("<Y_1>X_0>", "<Y_1>", "a<") == "a<X_0>"
  {
    assert "<Y_1>X_0>"[5..] == "X_0>";
    NotInside("X_0>", "<Y_1>");
    AbsentUnchanged("X_0>", "<Y_1>", "a<");
  }

  lemma DecodeTwo(text: string, mapping: seq<(string, string)>)
    requires |mapping| == 2 && mapping[0].0 != "" && mapping[1].0 != ""
    ensures Decode(text, mapping, 2)
            == ReplaceAll(ReplaceAll(text, mapping[0].0, mapping[0].1), mapping[1].0, mapping[1].1)
  {
    assert Decode(text, mapping, 0) == text;
    assert Decode(text, mapping, 1) == ReplaceAll(text, mapping[0].0, mapping[0].1);
  }

  /**
    Overlapping spans do not come back: the second span cuts into the placeholder of the first, so
    "ab" becomes "<Y_1>X_0>" and decodes to "a<X_0>".
  */
  lemma OverlappingSpansAreLost()
    ensures Decode(SpanText("ab", OVERLAPPING, 2), MappingOf(SpanFinds("ab", OVERLAPPING)), 2) == "a<X_0>"
  {
    OverlappingMapping();
    DecodeTwo("<Y_1>X_0>", [("<X_0>", "b"), ("<Y_1>", "a<")]);
    FirstStays();
    SecondReturns();
  }
}
