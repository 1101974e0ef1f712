/**
  What anonymizing takes out of a text: each turn replaces the first place where its match still
  occurs, so a match listed as often as it occurs is gone at the end, and a placeholder stands in the
  text for every match that was found. What stays is counted with Python's str.count.
*/
module AnonymizerRemoval {
  import opened Anonymizer
  import opened AnonymizerTokens
  import opened AnonymizerRoundTrip
  import opened AnonymizerSources

  /** s.count(p): occurrences that do not overlap, from the left. */
  function Count(s: string, p: string): nat
    requires p != ""
  {
    if p <= s then 1 + Count(s[|p|..], p) else if s == "" then 0 else Count(s[1..], p)
  }

  // Whether p occurs is decided at the front or further on.
  lemma OccursLater(s: string, p: string)
    requires s != ""
    ensures Occurs(p, s) <==> p <= s || Occurs(p, s[1..])
  {
    assert s[0..] == s;
    forall i | 0 < i <= |s| ensures s[i..] == s[1..][i - 1..] {}
    forall i | 0 <= i <= |s[1..]| ensures s[1..][i..] == s[i + 1..] {}
  }

  lemma {:induction false} CountIfOccurs(s: string, p: string)
    requires p != ""
    ensures Count(s, p) > 0 <==> Occurs(p, s)
  {
    if s == "" {
      assert s[0..] == "";
    } else {
      OccursLater(s, p);
      if !(p <= s) { CountIfOccurs(s[1..], p); }
    }
  }

  // ---------- One replacement ----------

  // The first occurrence of p in s stands between a and b.
  ghost predicate First(s: string, p: string, a: string, b: string) {
    s == a + p + b && forall i | 0 <= i < |a| :: !(p <= s[i..])
  }

  // t is s with that occurrence replaced by r, or s itself if there is none.
  ghost predicate ReplacedFirst(s: string, p: string, r: string, a: string, b: string, t: string) {
    && (Occurs(p, s) ==> First(s, p, a, b) && t == a + r + b)
    && (!Occurs(p, s) ==> t == s)
  }

  lemma ConsThree(c: string, x: string, y: string, z: string)
    ensures c + (x + y + z) == c + x + y + z
  {
  }

  lemma FirstLater(s: string, p: string, a: string, b: string)
    requires s != "" && !(p <= s) && First(s[1..], p, a, b)
    ensures First(s, p, [s[0]] + a, b)
  {
    ConsThree([s[0]], a, p, b);
    forall i | 0 <= i < |a| + 1 ensures !(p <= s[i..]) {
      if i > 0 { assert s[i..] == s[1..][i - 1..]; } else { assert s[0..] == s; }
    }
  }

  lemma ReplacedLater(s: string, p: string, r: string, a: string, b: string, t: string)
    requires s != "" && !(p <= s) && ReplacedFirst(s[1..], p, r, a, b, t)
    ensures ReplacedFirst(s, p, r, [s[0]] + a, b, [s[0]] + t)
  {
    OccursLater(s, p);
    if Occurs(p, s[1..]) {
      FirstLater(s, p, a, b);
      ConsThree([s[0]], a, r, b);
    }
  }

  lemma ReplacedHere(s: string, p: string, r: string)
    requires p <= s
    ensures ReplacedFirst(s, p, r, "", s[|p|..], r + s[|p|..])
  {
    assert s[0..] == s == p + s[|p|..];
  }

  /** str.replace(p, r, 1): what stands before the first occurrence, the new text, and what stands after. */
  lemma {:induction false} ReplacesFirst(s: string, p: string, r: string) returns (a: string, b: string)
    ensures ReplacedFirst(s, p, r, a, b, ReplaceFirst(s, p, r))
  {
    a, b := "", "";
    if p <= s {
      ReplacedHere(s, p, r);
      b := s[|p|..];
    } else if s != "" {
      var a', b' := ReplacesFirst(s[1..], p, r);
      ReplacedLater(s, p, r, a', b', ReplaceFirst(s[1..], p, r));
      a, b := [s[0]] + a', b';
    } else {
      assert s[0..] == s;
    }
  }

  lemma {:induction false} CountSkip(front: string, rest: string, q: string)
    requires q != "" && forall i | 0 <= i < |front| :: !(q <= front[i..] + rest)
    ensures Count(front + rest, q) == Count(rest, q)
  {
    if front == "" {
      assert front + rest == rest;
    } else {
      assert front[0..] == front;
      assert (front + rest)[1..] == front[1..] + rest;
      forall i | 0 <= i < |front[1..]| ensures !(q <= front[1..][i..] + rest) {
        assert front[1..][i..] == front[i + 1..];
      }
      CountSkip(front[1..], rest, q);
    }
  }

  // What starts in a ends in a.
  ghost predicate EndsIn(a: string, rest: string, q: string) {
    forall i | 0 <= i < |a| && q <= a[i..] + rest :: i + |q| <= |a|
  }

  lemma EndsInTail(a: string, rest: string, q: string, n: nat)
    requires EndsIn(a, rest, q) && n <= |a|
    ensures EndsIn(a[n..], rest, q)
  {
    forall i | 0 <= i < |a[n..]| && q <= a[n..][i..] + rest ensures i + |q| <= |a[n..]| {
      assert a[n..][i..] == a[n + i..];
    }
  }

  lemma {:induction false} CountFront(a: string, rest: string, q: string)
    requires q != "" && EndsIn(a, rest, q)
    ensures Count(a + rest, q) == Count(a, q) + Count(rest, q)
    decreases |a|
  {
    if a == "" {
      assert a + rest == rest;
    } else {
      assert a[0..] == a;
      var n := if q <= a + rest then |q| else 1;
      EndsInTail(a, rest, q, n);
      CountFront(a[n..], rest, q);
      assert (a + rest)[n..] == a[n..] + rest;
    }
  }

  // ---------- What a replacement does to the counts ----------

  // No placeholder is like this: it has no bracket inside and is not part of r, or is another placeholder.
  ghost predicate Elsewhere(q: string, r: string) {
    || (q != "" && NoAngles(q) && !Occurs(q, r))
    || (Bracketed(q) && q != r)
  }

  lemma EndsBefore(a: string, r: string, b: string, q: string)
    requires Bracketed(r) && (NoAngles(q) || Bracketed(q))
    ensures EndsIn(a, r + b, q)
  {
    forall i | 0 <= i < |a| && q <= a[i..] + (r + b) ensures i + |q| <= |a| {
      var j := |a| - i;
      if j < |q| {
        assert q[j] == (a[i..] + (r + b))[j] == '<';
        if Bracketed(q) { BracketedInside(q, j); }
      }
    }
  }

  lemma CountAround(a: string, r: string, b: string, q: string)
    requires Bracketed(r) && Elsewhere(q, r)
    ensures Count(a + r + b, q) == Count(a, q) + Count(b, q)
  {
    EndsBefore(a, r, b, q);
    CountFront(a, r + b, q);
    forall i | 0 <= i < |r| ensures !(q <= r[i..] + b) {
      if Bracketed(q) { NoPlaceholderInside(r, b, q, i); } else { NoMatchInside(r, b, q, i); }
    }
    CountSkip(r, b, q);
    assert a + r + b == a + (r + b);
  }

  lemma CountItself(a: string, r: string, b: string)
    requires Bracketed(r)
    ensures Count(a + r + b, r) == Count(a, r) + 1 + Count(b, r)
  {
    EndsBefore(a, r, b, r);
    CountFront(a, r + b, r);
    assert (r + b)[|r|..] == b;
    assert a + r + b == a + (r + b);
  }

  // A placeholder that reaches into a match contains it.
  lemma MatchInside(x: string, p: string, b: string, q: string)
    requires NoAngles(p) && Bracketed(q) && x != "" && |x| < |q| && q <= x + (p + b)
    ensures Occurs(p, q)
  {
    var s, j := x + (p + b), |x|;
    assert forall k | 0 <= k < |p| && j + k < |q| :: q[j + k] == s[j + k] == p[k] && p[k] != '>';
    assert q[|q| - 1] == '>' && q[|q| - 1] == q[j + (|q| - 1 - j)];
    assert p <= q[j..];
  }

  // A match that is no part of a placeholder q separates what q occurs in.
  lemma CountAroundMatch(a: string, p: string, b: string, q: string)
    requires p != "" && NoAngles(p) && Bracketed(q) && !Occurs(p, q)
    ensures Count(a + p + b, q) == Count(a, q) + Count(b, q)
  {
    forall i | 0 <= i < |a| && q <= a[i..] + (p + b) ensures i + |q| <= |a| {
      if |a| - i < |q| { MatchInside(a[i..], p, b, q); }
    }
    CountFront(a, p + b, q);
    forall i | 0 <= i < |p| ensures !(q <= p[i..] + b) {
      assert (p[i..] + b)[0] == p[i];
    }
    CountSkip(p, b, q);
    assert a + p + b == a + (p + b);
  }

  // Dropping characters in front never adds an occurrence, and dropping |q| of them costs at most one.
  lemma {:induction false} CountDrop(s: string, q: string, n: nat)
    requires q != "" && n <= |s|
    ensures Count(s[n..], q) <= Count(s, q)
    ensures n <= |q| ==> Count(s, q) <= 1 + Count(s[n..], q)
    decreases |s|
  {
    if n == 0 {
      assert s[0..] == s;
    } else if q <= s {
      if |q| <= n {
        CountDrop(s[|q|..], q, n - |q|);
        assert s[|q|..][n - |q|..] == s[n..];
      } else {
        CountDrop(s[n..], q, |q| - n);
        assert s[n..][|q| - n..] == s[|q|..];
      }
    } else {
      CountDrop(s[1..], q, n - 1);
      assert s[1..][n - 1..] == s[n..];
    }
  }

  lemma {:induction false} CountBoth(a: string, b: string, q: string)
    requires q != ""
    ensures Count(a, q) + Count(b, q) <= Count(a + b, q)
    decreases |a|
  {
    if a == "" {
      assert a + b == b;
    } else if q <= a {
      CountBoth(a[|q|..], b, q);
      assert (a + b)[|q|..] == a[|q|..] + b;
    } else {
      CountBoth(a[1..], b, q);
      assert (a + b)[1..] == a[1..] + b;
      CountDrop(a + b, q, 1);
    }
  }

  lemma PrefixLonger(p: string, x: string, y: string)
    ensures p <= x ==> p <= x + y
  {
  }

  lemma CountFirst(s: string, p: string, a: string, b: string)
    requires p != "" && First(s, p, a, b)
    ensures Count(s, p) == 1 + Count(b, p) && Count(a, p) == 0
  {
    assert s == a + (p + b);
    forall i | 0 <= i < |a| ensures !(p <= a[i..] + (p + b)) {
      assert s[i..] == a[i..] + (p + b);
    }
    CountSkip(a, p + b, p);
    assert (p + b)[|p|..] == b;
    CountIfOccurs(a, p);
    forall i | 0 <= i < |a| ensures p <= a[i..] ==> p <= a[i..] + (p + b) { PrefixLonger(p, a[i..], p + b); }
  }

  // The characters of a match may have been part of other matches.
  lemma CountReplaced(a: string, p: string, r: string, b: string, q: string)
    requires Bracketed(r) && q != "" && NoAngles(q) && !Occurs(q, r)
    ensures Count(a + r + b, q) <= Count(a + p + b, q)
  {
    CountAround(a, r, b, q);
    CountBoth(a + p, b, q);
    CountBoth(a, p, q);
  }

  /** A turn takes one occurrence of its match out of the text, if there is one, and adds none of another. */
  lemma TurnRemoves(s: string, p: string, r: string, q: string)
    requires p != "" && Bracketed(r) && q != "" && NoAngles(q) && !Occurs(q, r)
    ensures Count(ReplaceFirst(s, p, r), q) <= Count(s, q)
    ensures p == q ==> Count(ReplaceFirst(s, p, r), q) == if Count(s, q) > 0 then Count(s, q) - 1 else 0
  {
    var a, b := ReplacesFirst(s, p, r);
    CountIfOccurs(s, p);
    if Occurs(p, s) {
      CountReplaced(a, p, r, b, q);
      if p == q {
        CountAround(a, r, b, q);
        CountFirst(s, p, a, b);
      }
    }
  }

  /** A turn adds one occurrence of its own placeholder, if it finds its match, and none of another. */
  lemma TurnIssues(s: string, p: string, r: string, q: string)
    requires p != "" && NoAngles(p) && Bracketed(r) && Bracketed(q) && !Occurs(p, q)
    ensures Count(ReplaceFirst(s, p, r), q) == Count(s, q) + if Occurs(p, s) && q == r then 1 else 0
  {
    var a, b := ReplacesFirst(s, p, r);
    if Occurs(p, s) {
      CountAroundMatch(a, p, b, q);
      if q == r { CountItself(a, r, b); } else { CountAround(a, r, b, q); }
    }
  }

  // ---------- All turns ----------

  /** How often the first n finds list a match. */
  function Listed(finds: seq<Find>, m: string, n: nat): nat
    requires n <= |finds|
  {
    if n == 0 then 0 else Listed(finds, m, n - 1) + (if finds[n - 1].original == m then 1 else 0)
  }

  /**
    Every listing of a match takes one of its occurrences out of the text; in particular a match that
    is listed as often as it occurs is gone.
  */
  lemma {:induction false} ListedMatchesLeave(text: string, finds: seq<Find>, n: nat, j: nat)
    requires Plain(finds) && n <= |finds| && j < |finds|
    ensures var m := finds[j].original;
            var left := Count(Encode(text, finds, n), m);
            && (left == 0 || left + Listed(finds, m, n) <= Count(text, m))
            && (Listed(finds, m, n) >= Count(text, m) ==> !Occurs(m, Encode(text, finds, n)))
  {
    var m := finds[j].original;
    CountIfOccurs(Encode(text, finds, n), m);
    if n > 0 {
      ListedMatchesLeave(text, finds, n - 1, j);
      PlaceholderBracketed(finds[n - 1].entity, n - 1);
      TurnRemoves(Encode(text, finds, n - 1), finds[n - 1].original, Issued(finds, n - 1), m);
    }
  }

  lemma {:induction false} IssuedCount(text: string, finds: seq<Find>, n: nat, k: nat)
    requires Plain(finds) && n <= |finds| && k < |finds|
    ensures Count(Encode(text, finds, n), Issued(finds, k))
            == Count(text, Issued(finds, k))
               + if k < n && Occurs(finds[k].original, Encode(text, finds, k)) then 1 else 0
  {
    if n > 0 {
      IssuedCount(text, finds, n - 1, k);
      PlaceholderBracketed(finds[n - 1].entity, n - 1);
      PlaceholderBracketed(finds[k].entity, k);
      if k != n - 1 && Issued(finds, k) == Issued(finds, n - 1) {
        PlaceholderCounter(finds[k].entity, k, finds[n - 1].entity, n - 1);
      }
      TurnIssues(Encode(text, finds, n - 1), finds[n - 1].original, Issued(finds, n - 1), Issued(finds, k));
    }
  }

  /**
    The anonymized text has one placeholder more than the text itself for every match that still
    occurred at its turn, and none for the others.
  */
  lemma PlaceholderIssuedExactly(text: string, finds: seq<Find>, k: nat)
    requires Plain(finds) && k < |finds|
    ensures var p, encoded, found := Issued(finds, k), Encode(text, finds, |finds|), finds[k].original;
            && Count(encoded, p) == Count(text, p) + (if Occurs(found, Encode(text, finds, k)) then 1 else 0)
            && (!Occurs(p, text) ==> (Occurs(p, encoded) <==> Occurs(found, Encode(text, finds, k))))
  {
    IssuedCount(text, finds, |finds|, k);
    CountIfOccurs(text, Issued(finds, k));
    CountIfOccurs(Encode(text, finds, |finds|), Issued(finds, k));
  }

  // ---------- Where a match was found ----------

  // The new text starts with the first bracket behind a.
  lemma SamePlace(a: string, b: string, u: string, v: string, m: string, r: string)
    requires a + m + b == u + m + v && |a| <= |u| && m != "" && NoAngles(m) && Bracketed(r)
    ensures a + r + b == u + r + v <==> |a| == |u|
  {
    var s := a + m + b;
    if |a| == |u| {
      assert a == s[..|a|] == (u + m + v)[..|u|] == u;
      assert b == s[|a| + |m|..] == (u + m + v)[|u| + |m|..] == v;
    } else {
      assert (a + r + b)[|a|] == '<';
      assert (u + r + v)[|a|] == u[|a|] == (u + m + v)[|a|] == s[|a|] == m[0] != '<';
    }
  }

  lemma FirstAt(s: string, m: string, a: string, b: string, n: nat)
    requires First(s, m, a, b) && n <= |s| && m <= s[n..]
    ensures Occurs(m, s)
    ensures |a| <= n && (|a| == n <==> forall i | 0 <= i < n :: !(m <= s[i..]))
  {
    assert s[|a|..] == m + b;
  }

  lemma FoundPlace(s: string, a: string, b: string, u: string, v: string, m: string, r: string)
    requires s == u + m + v && First(s, m, a, b) && m != "" && NoAngles(m) && Bracketed(r)
    ensures a + r + b == u + r + v <==> forall i | 0 <= i < |u| :: !(m <= s[i..])
  {
    assert s[|u|..] == m + v;
    FirstAt(s, m, a, b, |u|);
    SamePlace(a, b, u, v, m, r);
  }

  lemma OccursThere(s: string, u: string, m: string, v: string)
    requires s == u + m + v
    ensures Occurs(m, s)
  {
    assert s[|u|..] == m + v;
  }

  /**
    The place where a match was found is the one that is replaced if and only if the same characters
    do not occur further left.
  */
  lemma FoundPlaceExactly(s: string, u: string, m: string, v: string, r: string)
    requires s == u + m + v && m != "" && NoAngles(m) && Bracketed(r)
    ensures ReplaceFirst(s, m, r) == u + r + v <==> forall i | 0 <= i < |u| :: !(m <= s[i..])
  {
    var a, b := ReplacesFirst(s, m, r);
    OccursThere(s, u, m, v);
    FoundPlace(s, a, b, u, v, m, r);
  }

  /** So a number stays in the text when it was found behind a longer word with the same characters. */
  lemma FoundNumberStays(number: string, r: string)
    requires number != "" && number[0] != 'A'
    ensures ReplaceFirst("A" + number + " " + number, number, r) == "A" + r + " " + number
  {
    var rest := number + (" " + number);
    assert "A"[0..] == "A" && ("A" + rest)[0] == 'A';
    SkipFirst("A", rest, number, r);
    assert rest[|number|..] == " " + number;
    ConsThree("A", number, " ", number);
    ConsThree("A", r, " ", number);
    ConsTwo(number, " ", number);
    ConsTwo(r, " ", number);
  }

  lemma ConsTwo(x: string, y: string, z: string)
    ensures x + y + z == x + (y + z)
  {
  }

  // ---------- The analyzer's spans ----------

  // What stands right of the first n spans' left end when each of them is replaced and nothing else is.
  function Pieces(text: string, spans: seq<Span>, n: nat): string
    requires n <= |spans| && Disjoint(spans, |text|)
  {
    if n == 0 then ""
    else
      var span := spans[n - 1];
      Placeholder(span.entity, n - 1) + text[span.end..LeftEnd(spans, |text|, n - 1)] + Pieces(text, spans, n - 1)
  }

  lemma CutAt(s: string, text: string, left: nat, tail: string, start: nat, end: nat, p: string, longer: string)
    requires start <= end <= left <= |text| && s == text[..left] + tail && longer == p + text[end..left] + tail
    ensures AnonymizerSources.Take(s, start) + p + AnonymizerSources.Drop(s, end) == text[..start] + longer
  {
    assert s[..start] == text[..start] && s[end..] == text[end..left] + tail;
  }

  /**
    Spans that do not overlap are cut out: the anonymized text is the text between the spans, with
    the placeholder of each span where the span was.
  */
  lemma {:induction false} SpansAreCutOut(text: string, spans: seq<Span>, n: nat)
    requires Disjoint(spans, |text|) && n <= |spans|
    ensures SpanText(text, spans, n) == text[..LeftEnd(spans, |text|, n)] + Pieces(text, spans, n)
  {
    if n > 0 {
      var left := LeftEnd(spans, |text|, n - 1);
      SpansAreCutOut(text, spans, n - 1);
      assert spans[n - 1].end <= left;
      CutAt(SpanText(text, spans, n - 1), text, left, Pieces(text, spans, n - 1), spans[n - 1].start,
            spans[n - 1].end, Placeholder(spans[n - 1].entity, n - 1), Pieces(text, spans, n));
    }
  }
}
