/**
  Reversible anonymization (`security/zones.py`): `sanitize_pii` replaces each match by a numbered
  placeholder and remembers the original, `deanonymize` replaces the placeholders back. The matches
  are arbitrary strings, as the regular expressions or the analyzer deliver them.
*/
module Anonymizer {

  // ---------- Python's str.replace ----------

  function ReplaceFirst(s: string, p: string, r: string): string {
    if p <= s then r + s[|p|..] else if s == "" then "" else [s[0]] + ReplaceFirst(s[1..], p, r)
  }

  function ReplaceAll(s: string, p: string, r: string): string
    requires p != ""
  {
    if p <= s then r + ReplaceAll(s[|p|..], p, r)
    else if s == "" then "" else [s[0]] + ReplaceAll(s[1..], p, r)
  }

  ghost predicate Occurs(p: string, s: string) {
    exists i :: 0 <= i <= |s| && p <= s[i..]
  }

  // ---------- Placeholders ----------

  function Digit(n: nat): char
    requires n < 10
  {
    "0123456789"[n]
  }

  function Decimal(n: nat): string {
    if n < 10 then [Digit(n)] else Decimal(n / 10) + [Digit(n % 10)]
  }

  function Placeholder(entity: string, counter: nat): string {
    "<" + entity + "_" + Decimal(counter) + ">"
  }

  datatype Find = Find(entity: string, original: string)

  // The placeholder issued for the k-th find.
  function Issued(finds: seq<Find>, k: nat): string
    requires k < |finds|
  {
    Placeholder(finds[k].entity, k)
  }

  // ---------- The two passes ----------

  function Encode(text: string, finds: seq<Find>, n: nat): string
    requires n <= |finds|
  {
    if n == 0 then text
    else ReplaceFirst(Encode(text, finds, n - 1), finds[n - 1].original, Issued(finds, n - 1))
  }

  function Decode(text: string, mapping: seq<(string, string)>, n: nat): string
    requires n <= |mapping| && forall k | 0 <= k < |mapping| :: mapping[k].0 != ""
  {
    if n == 0 then text else ReplaceAll(Decode(text, mapping, n - 1), mapping[n - 1].0, mapping[n - 1].1)
  }

  function MappingOf(finds: seq<Find>): (mapping: seq<(string, string)>)
    ensures |mapping| == |finds|
    ensures forall k | 0 <= k < |mapping| :: mapping[k].0 != ""
  {
    seq(|finds|, k requires 0 <= k < |finds| => (Issued(finds, k), finds[k].original))
  }

  function RoundTrip(text: string, finds: seq<Find>): string {
    Decode(Encode(text, finds, |finds|), MappingOf(finds), |finds|)
  }

  predicate NoAngles(s: string) {
    '<' !in s && '>' !in s
  }

  /** Matches as the fallback patterns find them; their shape is discussed with `PatternMatch`. */
  ghost predicate Plain(finds: seq<Find>) {
    && (forall k | 0 <= k < |finds| ::
          NoAngles(finds[k].entity) && finds[k].original != "" && NoAngles(finds[k].original))
    && (forall j, k | 0 <= j < |finds| && 0 <= k < |finds| :: !Occurs(finds[j].original, Issued(finds, k)))
  }

  // ---------- The loops ----------

  const ENTITIES: seq<string> := ["EMAIL", "PHONE", "AFM", "IBAN_PARTIAL"]

  // What the patterns found, in the order in which the two loops visit it.
  function Flatten(found: seq<seq<string>>): seq<Find>
    requires |found| <= |ENTITIES|
  {
    if found == [] then []
    else Flatten(found[..|found| - 1]) + Tagged(ENTITIES[|found| - 1], found[|found| - 1])
  }

  function Tagged(entity: string, matches: seq<string>): seq<Find> {
    seq(|matches|, i requires 0 <= i < |matches| => Find(entity, matches[i]))
  }

  // The first n finds are replaced and remembered.
  ghost predicate Replaced(text: string, finds: seq<Find>, n: nat, result: string, mapping: seq<(string, string)>) {
    n <= |finds| && result == Encode(text, finds, n) && mapping == MappingOf(finds)[..n]
  }

  lemma ReplacedStep(text: string, finds: seq<Find>, n: nat, result: string, mapping: seq<(string, string)>)
    requires n < |finds| && Replaced(text, finds, n, result, mapping)
    ensures var find, placeholder := finds[n], Placeholder(finds[n].entity, n);
            Replaced(text, finds, n + 1, ReplaceFirst(result, find.original, placeholder),
                     mapping + [(placeholder, find.original)])
  {
    assert MappingOf(finds)[..n + 1] == MappingOf(finds)[..n] + [MappingOf(finds)[n]];
  }

  /** The regular-expression branch of sanitize_pii; `found[p]` is what the p-th pattern finds. */
  method SanitizeFallback(text: string, found: seq<seq<string>>)
    returns (result: string, mapping: seq<(string, string)>)
    requires |found| == |ENTITIES|
    ensures var finds := Flatten(found);
            result == Encode(text, finds, |finds|) && mapping == MappingOf(finds)
  {
    ghost var finds := Flatten(found);
    result, mapping := text, [];
    var counter, p := 0, 0;
    while p < |found|
      invariant 0 <= p <= |found|
      invariant counter == |Flatten(found[..p])|
      invariant Replaced(text, finds, counter, result, mapping)
    {
      FlattenStep(found, p);
      var entity, matches := ENTITIES[p], found[p];
      ghost var start := counter;
      var i := 0;
      while i < |matches|
        invariant 0 <= i <= |matches| && counter == start + i
        invariant Replaced(text, finds, counter, result, mapping)
      {
        assert finds[start + i] == Find(entity, matches[i]);
        ReplacedStep(text, finds, counter, result, mapping);
        var placeholder := Placeholder(entity, counter);
        mapping := mapping + [(placeholder, matches[i])];
        result := ReplaceFirst(result, matches[i], placeholder);
        counter := counter + 1;
        i := i + 1;
      }
      p := p + 1;
    }
    assert found[..p] == found;
    assert MappingOf(finds)[..|finds|] == MappingOf(finds);
  }

  lemma FlattenStep(found: seq<seq<string>>, p: nat)
    requires p < |found| <= |ENTITIES|
    ensures var finds, n := Flatten(found), |Flatten(found[..p])|;
            && |Flatten(found[..p + 1])| == n + |found[p]| <= |finds|
            && forall i | 0 <= i < |found[p]| :: finds[n + i] == Find(ENTITIES[p], found[p][i])
  {
    var finds, upTo, before := Flatten(found), Flatten(found[..p + 1]), Flatten(found[..p]);
    var tagged := Tagged(ENTITIES[p], found[p]);
    FlattenPrefix(found, p + 1);
    assert found[..p + 1][..p] == found[..p];
    assert upTo == before + tagged;
    forall i | 0 <= i < |found[p]| ensures finds[|before| + i] == Find(ENTITIES[p], found[p][i]) {
      assert finds[|before| + i] == upTo[|before| + i] == tagged[i];
    }
  }

  lemma {:induction false} FlattenPrefix(found: seq<seq<string>>, p: nat)
    requires p <= |found| <= |ENTITIES|
    ensures Flatten(found[..p]) <= Flatten(found)
    decreases |found|
  {
    if p == |found| {
      assert found[..p] == found;
    } else {
      var front := found[..|found| - 1];
      assert front[..p] == found[..p];
      FlattenPrefix(front, p);
    }
  }

  method Deanonymize(text: string, mapping: seq<(string, string)>) returns (result: string)
    requires forall k | 0 <= k < |mapping| :: mapping[k].0 != ""
    ensures result == Decode(text, mapping, |mapping|)
  {
    result := text;
    var k := 0;
    while k < |mapping|
      invariant 0 <= k <= |mapping| && result == Decode(text, mapping, k)
    {
      result := ReplaceAll(result, mapping[k].0, mapping[k].1);
      k := k + 1;
    }
  }
}
