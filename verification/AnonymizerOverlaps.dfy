/**
  Overlapping spans (`security/zones.py`, the analyzer branch): a span that reaches past the start of
  the one cut before it cuts into that one's placeholder. Decoding goes in insertion order, so the
  placeholder is put together again only after its turn, and stays in the text.
*/
module AnonymizerOverlaps {
  import opened Anonymizer
  import opened AnonymizerTokens
  import opened AnonymizerRoundTrip
  import opened AnonymizerSources

  // ---------- Replacing across a bracket ----------

  // No placeholder reaches across the start of another one.
  lemma NotAcross(a: string, s: string, p: string)
    requires Bracketed(p) && s != "" && s[0] == '<' && 0 < |a| < |p|
    ensures !(p <= a + s)
  {
    BracketedInside(p, |a|);
    assert (a + s)[|a|] == '<';
  }

  lemma FrontDecides(a: string, s: string, p: string)
    requires Bracketed(p) && s != "" && s[0] == '<' && a != ""
    ensures p <= a + s <==> p <= a
  {
    if |a| < |p| {
      NotAcross(a, s, p);
    } else {
      assert (a + s)[..|p|] == a[..|p|];
    }
  }

  lemma {:induction false} ReplaceAcross(a: string, s: string, p: string, o: string)
    requires Bracketed(p) && s != "" && s[0] == '<'
    ensures ReplaceAll(a + s, p, o) == ReplaceAll(a, p, o) + ReplaceAll(s, p, o)
    decreases |a|
  {
    if a == "" {
      assert a + s == s;
    } else {
      FrontDecides(a, s, p);
      if p <= a {
        ReplaceAcross(a[|p|..], s, p, o);
        HitInFront(a, s, p, o);
      } else {
        ReplaceAcross(a[1..], s, p, o);
        MissInFront(a, s, p, o);
      }
    }
  }

  lemma HitInFront(a: string, s: string, p: string, o: string)
    requires p != "" && p <= a && p <= a + s
    ensures ReplaceAll(a, p, o) == o + ReplaceAll(a[|p|..], p, o)
    ensures ReplaceAll(a + s, p, o) == o + ReplaceAll(a[|p|..] + s, p, o)
  {
    assert (a + s)[|p|..] == a[|p|..] + s;
  }

  lemma MissInFront(a: string, s: string, p: string, o: string)
    requires p != "" && a != "" && !(p <= a) && !(p <= a + s)
    ensures ReplaceAll(a, p, o) == [a[0]] + ReplaceAll(a[1..], p, o)
    ensures ReplaceAll(a + s, p, o) == [a[0]] + ReplaceAll(a[1..] + s, p, o)
  {
    assert (a + s)[1..] == a[1..] + s;
  }

  // Another placeholder is passed over.
  lemma ReplaceAround(a: string, q: string, c: string, p: string, o: string)
    requires Bracketed(p) && Bracketed(q) && p != q
    ensures ReplaceAll(a + (q + c), p, o) == ReplaceAll(a, p, o) + (q + ReplaceAll(c, p, o))
  {
    ReplaceAcross(a, q + c, p, o);
    forall i | 0 <= i < |q| ensures !(p <= q[i..] + c) { NoPlaceholderInside(q, c, p, i); }
    SkipAll(q, c, p, o);
  }

  lemma ReplaceHere(a: string, p: string, c: string, o: string)
    requires Bracketed(p)
    ensures ReplaceAll(a + (p + c), p, o) == ReplaceAll(a, p, o) + (o + ReplaceAll(c, p, o))
  {
    ReplaceAcross(a, p + c, p, o);
    assert (p + c)[|p|..] == c;
  }

  // Text without an opening bracket is passed over.
  lemma ReplaceAfter(r: string, c: string, p: string, o: string)
    requires Bracketed(p) && '<' !in r
    ensures ReplaceAll(r + c, p, o) == r + ReplaceAll(c, p, o)
  {
    forall i | 0 <= i < |r| ensures !(p <= r[i..] + c) {
      assert (r[i..] + c)[0] == r[i];
    }
    SkipAll(r, c, p, o);
  }

  lemma OccursAt(a: string, q: string, c: string)
    ensures Occurs(q, a + (q + c))
  {
    assert (a + (q + c))[|a|..] == q + c;
  }

  // A placeholder that is not replaced stays.
  lemma OccursStays(s: string, q: string, p: string, o: string)
    requires Bracketed(p) && Bracketed(q) && p != q && Occurs(q, s)
    ensures Occurs(q, ReplaceAll(s, p, o))
  {
    var i :| 0 <= i <= |s| && q <= s[i..];
    var a, c := s[..i], s[i + |q|..];
    assert s == a + (q + c);
    ReplaceAround(a, q, c, p, o);
    OccursAt(ReplaceAll(a, p, o), q, ReplaceAll(c, p, o));
  }

  // ---------- Decoding step by step ----------

  // Mappings as sanitize_pii issues them.
  ghost predicate ProperMapping(mapping: seq<(string, string)>) {
    && (forall k | 0 <= k < |mapping| :: mapping[k].0 != "" && Bracketed(mapping[k].0))
    && (forall j, k | 0 <= j < k < |mapping| :: mapping[j].0 != mapping[k].0)
  }

  lemma {:induction false} DecodeAround(a: string, k: nat, c: string, mapping: seq<(string, string)>, n: nat)
    requires ProperMapping(mapping) && n <= k < |mapping|
    ensures Decode(a + (mapping[k].0 + c), mapping, n) == Decode(a, mapping, n) + (mapping[k].0 + Decode(c, mapping, n))
  {
    if n > 0 {
      DecodeAround(a, k, c, mapping, n - 1);
      var a', c' := Decode(a, mapping, n - 1), Decode(c, mapping, n - 1);
      ReplaceAround(a', mapping[k].0, c', mapping[n - 1].0, mapping[n - 1].1);
    }
  }

  lemma {:induction false} DecodeAfter(r: string, c: string, mapping: seq<(string, string)>, n: nat)
    requires ProperMapping(mapping) && n <= |mapping| && '<' !in r
    ensures Decode(r + c, mapping, n) == r + Decode(c, mapping, n)
  {
    if n > 0 {
      DecodeAfter(r, c, mapping, n - 1);
      ReplaceAfter(r, Decode(c, mapping, n - 1), mapping[n - 1].0, mapping[n - 1].1);
    }
  }

  lemma {:induction false} DecodeKeeps(s: string, k: nat, mapping: seq<(string, string)>, m: nat, n: nat)
    requires ProperMapping(mapping) && k < m <= n <= |mapping| && Occurs(mapping[k].0, Decode(s, mapping, m))
    ensures Occurs(mapping[k].0, Decode(s, mapping, n))
  {
    if m < n {
      DecodeKeeps(s, k, mapping, m, n - 1);
      OccursStays(Decode(s, mapping, n - 1), mapping[k].0, mapping[n - 1].0, mapping[n - 1].1);
    }
  }

  // A cut placeholder comes back after its turn: v is what was cut from placeholder k - 1 on.
  lemma CutComesBack(a: string, u: string, v: string, z: string, rest: string, k: nat, mapping: seq<(string, string)>)
    requires ProperMapping(mapping) && 0 < k < |mapping| && mapping[k].1 == u + v
    requires v != "" && v + rest == mapping[k - 1].0 + z
    ensures Occurs(mapping[k - 1].0, Decode(a + (mapping[k].0 + rest), mapping, k + 1))
  {
    var p, o := mapping[k].0, mapping[k].1;
    var a', rest' := Decode(a, mapping, k), Decode(rest, mapping, k);
    DecodeAround(a, k, rest, mapping, k);
    ReplaceHere(a', p, rest', o);
    CutRest(v, z, rest, k, mapping);
    PrefixInside(ReplaceAll(a', p, o), u, v, ReplaceAll(rest', p, o), mapping[k - 1].0);
  }

  lemma CutStays(a: string, u: string, v: string, z: string, rest: string, k: nat, mapping: seq<(string, string)>)
    requires ProperMapping(mapping) && 0 < k < |mapping| && mapping[k].1 == u + v
    requires v != "" && v + rest == mapping[k - 1].0 + z
    ensures Occurs(mapping[k - 1].0, Decode(a + (mapping[k].0 + rest), mapping, |mapping|))
  {
    CutComesBack(a, u, v, z, rest, k, mapping);
    DecodeKeeps(a + (mapping[k].0 + rest), k - 1, mapping, k + 1, |mapping|);
  }

  lemma PrefixInside(before: string, u: string, v: string, after: string, q: string)
    requires q <= v + after
    ensures Occurs(q, before + (u + v + after))
  {
    var c := (v + after)[|q|..];
    assert v + after == q + c;
    OccursAt(before + u, q, c);
    assert before + u + (q + c) == before + (u + v + after);
  }

  lemma CutRest(v: string, z: string, rest: string, k: nat, mapping: seq<(string, string)>)
    requires ProperMapping(mapping) && 0 < k < |mapping|
    requires v != "" && v + rest == mapping[k - 1].0 + z
    ensures mapping[k - 1].0 <= v + Decode(rest, mapping, k + 1)
  {
    var q := mapping[k - 1].0;
    if |v| < |q| {
      var r := q[|v|..];
      assert rest == r + z by { assert (v + rest)[|v|..] == rest && (q + z)[|v|..] == r + z; }
      forall i | 0 <= i < |r| ensures r[i] != '<' { BracketedInside(q, |v| + i); }
      DecodeAfter(r, z, mapping, k + 1);
      assert v == q[..|v|] by { assert (v + rest)[..|v|] == v && (q + z)[..|v|] == q[..|v|]; }
      assert q == v + r;
    } else {
      assert q == v[..|q|] by { assert (v + rest)[..|q|] == v[..|q|] && (q + z)[..|q|] == q; }
    }
  }

  // ---------- Cutting spans from the right ----------

  // Spans of the text in the order in which they are cut; they may overlap.
  ghost predicate FromRight(spans: seq<Span>, length: nat) {
    && (forall k | 0 <= k < |spans| :: spans[k].start <= spans[k].end <= length)
    && (forall j, k | 0 <= j < k < |spans| :: spans[k].start <= spans[j].start)
  }

  // Span k reaches past the start of the one before.
  predicate Overlaps(spans: seq<Span>, k: nat) {
    0 < k < |spans| && spans[k].end > spans[k - 1].start
  }

  lemma CutLength(s: string, start: nat, end: nat, p: string)
    requires start <= |s|
    ensures |Take(s, start) + p + Drop(s, end)| >= start
  {
  }

  lemma {:induction false} LongEnough(text: string, spans: seq<Span>, n: nat)
    requires FromRight(spans, |text|) && n <= |spans|
    ensures |SpanText(text, spans, n)| >= LeftEnd(spans, |text|, n)
  {
    if n > 0 {
      var before, span := SpanText(text, spans, n - 1), spans[n - 1];
      LongEnough(text, spans, n - 1);
      assert span.start <= LeftEnd(spans, |text|, n - 1);
      CutLength(before, span.start, span.end, Placeholder(span.entity, n - 1));
    }
  }

  // Later cuts that do not overlap leave placeholder k and all to its right.
  lemma RightStays(text: string, spans: seq<Span>, k: nat, n: nat) returns (a: string)
    requires FromRight(spans, |text|) && k < n <= |spans| && forall i | k < i < n :: !Overlaps(spans, i)
    ensures |a| >= spans[n - 1].start
    ensures SpanText(text, spans, n)
            == a + (Placeholder(spans[k].entity, k) + Drop(SpanText(text, spans, k), spans[k].end))
  {
    LongEnough(text, spans, k);
    CutHere(text, spans, k);
    a := SpanText(text, spans, k)[..spans[k].start];
    a := LeftCuts(text, spans, k + 1, n, a,
                  Placeholder(spans[k].entity, k) + Drop(SpanText(text, spans, k), spans[k].end));
  }

  // Cuts in the front part leave the rest.
  lemma {:induction false} LeftCuts(text: string, spans: seq<Span>, m: nat, n: nat, b: string, c: string)
    returns (a: string)
    requires FromRight(spans, |text|) && 0 < m <= n <= |spans| && forall i | m <= i < n :: !Overlaps(spans, i)
    requires SpanText(text, spans, m) == b + c && |b| >= spans[m - 1].start
    ensures SpanText(text, spans, n) == a + c && |a| >= spans[n - 1].start
    decreases n - m
  {
    a := b;
    if m < n {
      assert !Overlaps(spans, m);
      a := CutBefore(text, spans, m, b, c);
      a := LeftCuts(text, spans, m + 1, n, a, c);
    }
  }

  lemma CutHere(text: string, spans: seq<Span>, k: nat)
    requires k < |spans| && spans[k].start <= |SpanText(text, spans, k)|
    ensures var before, span := SpanText(text, spans, k), spans[k];
            SpanText(text, spans, k + 1)
            == before[..span.start] + (Placeholder(span.entity, k) + Drop(before, span.end))
  {
    var before, p := SpanText(text, spans, k), Placeholder(spans[k].entity, k);
    assert before[..spans[k].start] + p + Drop(before, spans[k].end)
           == before[..spans[k].start] + (p + Drop(before, spans[k].end));
  }

  lemma CutBefore(text: string, spans: seq<Span>, n: nat, b: string, c: string) returns (a: string)
    requires n < |spans| && spans[n].start <= spans[n].end <= |b| && SpanText(text, spans, n) == b + c
    ensures |a| >= spans[n].start && SpanText(text, spans, n + 1) == a + c
  {
    var p := Placeholder(spans[n].entity, n);
    a := b[..spans[n].start] + p + b[spans[n].end..];
    CutLeft(b, c, spans[n].start, spans[n].end, p);
  }

  lemma CutLeft(b: string, c: string, start: nat, end: nat, p: string)
    requires start <= end <= |b|
    ensures Take(b + c, start) + p + Drop(b + c, end) == (b[..start] + p + b[end..]) + c
  {
    assert (b + c)[end..] == b[end..] + c;
  }

  // An overlapping span cuts at least the first character of the placeholder before it.
  lemma CutsPlaceholder(text: string, spans: seq<Span>, k: nat) returns (u: string, v: string, z: string)
    requires FromRight(spans, |text|) && Overlaps(spans, k)
    ensures Original(text, spans, k) == u + v && v != ""
    ensures v + Drop(SpanText(text, spans, k), spans[k].end) == Placeholder(spans[k - 1].entity, k - 1) + z
  {
    var earlier, s := SpanText(text, spans, k - 1), SpanText(text, spans, k);
    var p, start := Placeholder(spans[k - 1].entity, k - 1), spans[k - 1].start;
    LongEnough(text, spans, k - 1);
    z := Drop(earlier, spans[k - 1].end);
    var x := earlier[..start];
    assert s == x + (p + z) by { assert s == x + p + z; }
    SplitAt(x, p + z, spans[k].start, spans[k].end);
    u, v := x[spans[k].start..], Take(p + z, spans[k].end - start);
  }

  lemma SplitAt(x: string, y: string, from: nat, to: nat)
    requires from <= |x| < to && y != ""
    ensures Drop(Take(x + y, to), from) == x[from..] + Take(y, to - |x|)
    ensures Take(y, to - |x|) != "" && Take(y, to - |x|) + Drop(x + y, to) == y
  {
    var m := to - |x|;
    TakePast(x, y, m);
    DropInside(x, Take(y, m), from);
    if m <= |y| {
      assert y == y[..m] + y[m..];
    }
  }

  lemma TakePast(x: string, y: string, m: nat)
    ensures Take(x + y, |x| + m) == x + Take(y, m) && Drop(x + y, |x| + m) == Drop(y, m)
  {
  }

  lemma DropInside(x: string, w: string, from: nat)
    requires from <= |x|
    ensures Drop(x + w, from) == x[from..] + w
  {
  }

  lemma {:induction false} LastOverlap(spans: seq<Span>, n: nat) returns (k: nat)
    requires n <= |spans| && exists i :: 0 < i < n && Overlaps(spans, i)
    ensures k < n && Overlaps(spans, k) && forall i | k < i < n :: !Overlaps(spans, i)
  {
    if Overlaps(spans, n - 1) {
      k := n - 1;
    } else {
      k := LastOverlap(spans, n - 1);
    }
  }

  lemma {:induction false} NeighboursSuffice(spans: seq<Span>, length: nat, j: nat, k: nat)
    requires FromRight(spans, length) && j < k < |spans| && !Overlaps(spans, k)
    ensures spans[k].end <= spans[j].start
  {
  }

  lemma MappingIsProper(text: string, spans: seq<Span>)
    requires forall k | 0 <= k < |spans| :: NoAngles(spans[k].entity)
    ensures ProperMapping(MappingOf(SpanFinds(text, spans)))
  {
    var finds := SpanFinds(text, spans);
    PlaceholdersProper(finds);
    var mapping, ps := MappingOf(finds), PlaceholdersOf(finds);
    assert forall k | 0 <= k < |mapping| :: mapping[k].0 == ps[k];
  }

  // After the last overlap the placeholder it cuts into is still there when decoding ends.
  lemma OverlapLeavesPlaceholder(text: string, spans: seq<Span>, k: nat)
    requires FromRight(spans, |text|) && forall i | 0 <= i < |spans| :: NoAngles(spans[i].entity)
    requires Overlaps(spans, k) && forall i | k < i < |spans| :: !Overlaps(spans, i)
    ensures var mapping := MappingOf(SpanFinds(text, spans));
            Occurs(mapping[k - 1].0, Decode(SpanText(text, spans, |spans|), mapping, |spans|))
  {
    var mapping, rest := MappingOf(SpanFinds(text, spans)), Drop(SpanText(text, spans, k), spans[k].end);
    MappingIsProper(text, spans);
    MappingAt(text, spans, k - 1);
    MappingAt(text, spans, k);
    var a := RightStays(text, spans, k, |spans|);
    var u, v, z := CutsPlaceholder(text, spans, k);
    CutStays(a, u, v, z, rest, k, mapping);
  }

  /**
    The span round trip, exactly: for a text that spells out none of the issued placeholders, and the
    analyzer's spans cut from right to left, decoding restores the text if and only if no two spans
    overlap.
  */
  lemma SpansRestoreExactly(text: string, spans: seq<Span>)
    requires FromRight(spans, |text|) && forall k | 0 <= k < |spans| :: NoAngles(spans[k].entity)
    requires forall k | 0 <= k < |spans| :: !Occurs(Issued(SpanFinds(text, spans), k), text)
    ensures Decode(SpanText(text, spans, |spans|), MappingOf(SpanFinds(text, spans)), |spans|) == text
            <==> Disjoint(spans, |text|)
  {
    if exists i :: 0 < i < |spans| && Overlaps(spans, i) {
      var k := LastOverlap(spans, |spans|);
      OverlapLeavesPlaceholder(text, spans, k);
      MappingAt(text, spans, k - 1);
    } else {
      forall j, k | 0 <= j < k < |spans| ensures spans[k].end <= spans[j].start {
        NeighboursSuffice(spans, |text|, j, k);
      }
      SpanRoundTrip(text, spans);
    }
  }

  /** In particular for every text without angle brackets. */
  lemma PlainSpansRestoreExactly(text: string, spans: seq<Span>)
    requires FromRight(spans, |text|) && NoAngles(text) && forall k | 0 <= k < |spans| :: NoAngles(spans[k].entity)
    ensures Decode(SpanText(text, spans, |spans|), MappingOf(SpanFinds(text, spans)), |spans|) == text
            <==> Disjoint(spans, |text|)
  {
    forall k | 0 <= k < |spans| ensures !Occurs(Issued(SpanFinds(text, spans), k), text) {
      if Occurs(Issued(SpanFinds(text, spans), k), text) {
        OccursFront(Issued(SpanFinds(text, spans), k), text);
      }
    }
    SpansRestoreExactly(text, spans);
  }
}
