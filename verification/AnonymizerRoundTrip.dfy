/**
  When anonymization is reversible: decoding restores the original text if and only if the text
  spells out none of the placeholders that were issued for it.
*/
module AnonymizerRoundTrip {
  import opened Anonymizer
  import opened AnonymizerTokens

  function PlaceholdersOf(finds: seq<Find>): seq<string> {
    seq(|finds|, k requires 0 <= k < |finds| => Issued(finds, k))
  }

  function MatchesOf(finds: seq<Find>): seq<string> {
    seq(|finds|, k requires 0 <= k < |finds| => finds[k].original)
  }

  // ---------- Issued placeholders are pairwise different ----------

  lemma {:induction false} DecimalDigits(n: nat)
    ensures Decimal(n) != "" && forall i | 0 <= i < |Decimal(n)| :: '0' <= Decimal(n)[i] <= '9'
  {
    if n >= 10 {
      DecimalDigits(n / 10);
    }
  }

  // The last digit and those before it can be read off.
  lemma DecimalSplit(n: nat)
    requires n >= 10
    ensures var d := Decimal(n);
            && |d| > 1 && d[..|d| - 1] == Decimal(n / 10) && d[|d| - 1] == Digit(n % 10)
  {
    DecimalDigits(n / 10);
  }

  lemma {:induction false} DecimalInjective(m: nat, n: nat)
    requires Decimal(m) == Decimal(n)
    ensures m == n
  {
    if m >= 10 { DecimalSplit(m); }
    if n >= 10 { DecimalSplit(n); }
    if m >= 10 && n >= 10 {
      DecimalInjective(m / 10, n / 10);
    }
  }

  lemma PlaceholderBracketed(entity: string, n: nat)
    requires NoAngles(entity)
    ensures Bracketed(Placeholder(entity, n))
  {
    DecimalDigits(n);
    var p := Placeholder(entity, n);
    assert p[1..|p| - 1] == entity + "_" + Decimal(n);
  }

  // The digits after the last underscore are the counter.
  lemma PlaceholderCounter(entity: string, m: nat, entity': string, n: nat)
    requires Placeholder(entity, m) == Placeholder(entity', n)
    ensures m == n
  {
    var p, a, b := Placeholder(entity, m), Decimal(m), Decimal(n);
    DecimalDigits(m);
    DecimalDigits(n);
    assert p[|p| - 1 - |a|..|p| - 1] == a && p[|p| - 1 - |b|..|p| - 1] == b;
    LastUnderscore(p, |p| - 2 - |a|, |p| - 2 - |b|);
    DecimalInjective(m, n);
  }

  lemma LastUnderscore(p: string, i: nat, j: nat)
    requires i < |p| && p[i] == '_' && forall t | i < t < |p| :: p[t] != '_'
    requires j < |p| && p[j] == '_' && forall t | j < t < |p| :: p[t] != '_'
    ensures i == j
  {
  }

  /** The keys of the mapping are pairwise different, so no entry overwrites another. */
  lemma PlaceholdersProper(finds: seq<Find>)
    requires forall k | 0 <= k < |finds| :: NoAngles(finds[k].entity)
    ensures Proper(PlaceholdersOf(finds))
  {
    var ps := PlaceholdersOf(finds);
    forall k | 0 <= k < |ps| ensures Bracketed(ps[k]) { PlaceholderBracketed(finds[k].entity, k); }
    forall j, k | 0 <= j < k < |ps| ensures ps[j] != ps[k] {
      if ps[j] == ps[k] { PlaceholderCounter(finds[j].entity, j, finds[k].entity, k); }
    }
  }

  // ---------- Encoding ----------

  /** After n replacements the text is the original one with some matches turned into holes. */
  lemma {:induction false} EncodeTokens(text: string, finds: seq<Find>, n: nat) returns (tokens: Tokens)
    requires Plain(finds) && n <= |finds|
    ensures HolesBelow(tokens, n)
    ensures Spell(tokens, PlaceholdersOf(finds)) == Encode(text, finds, n)
    ensures Spell(tokens, MatchesOf(finds)) == text
  {
    if n == 0 {
      tokens := RawOf(text);
      SpellRaw(text, PlaceholdersOf(finds));
      SpellRaw(text, MatchesOf(finds));
    } else {
      var before := EncodeTokens(text, finds, n - 1);
      PlaceholdersProper(finds);
      tokens := DigHole(before, finds[n - 1].original, n - 1, PlaceholdersOf(finds), MatchesOf(finds));
    }
  }

  // ---------- Decoding ----------

  function Filled(tokens: Tokens, finds: seq<Find>, n: nat): Tokens
    requires n <= |finds|
  {
    if n == 0 then tokens
    else Fill(Filled(tokens, finds, n - 1), Issued(finds, n - 1), n - 1, finds[n - 1].original)
  }

  lemma {:induction false} DecodeTokens(tokens: Tokens, finds: seq<Find>, n: nat)
    requires n <= |finds| && HolesBelow(tokens, |finds|) && Proper(PlaceholdersOf(finds))
    ensures HolesBelow(Filled(tokens, finds, n), |finds|)
    ensures Spell(Filled(tokens, finds, n), PlaceholdersOf(finds))
            == Decode(Spell(tokens, PlaceholdersOf(finds)), MappingOf(finds), n)
  {
    if n > 0 {
      DecodeTokens(tokens, finds, n - 1);
      FillNext(Filled(tokens, finds, n - 1), finds, n - 1);
    }
  }

  lemma FillNext(tokens: Tokens, finds: seq<Find>, k: nat)
    requires k < |finds| && HolesBelow(tokens, |finds|) && Proper(PlaceholdersOf(finds))
    ensures var filled := Fill(tokens, Issued(finds, k), k, finds[k].original);
            && HolesBelow(filled, |finds|)
            && Spell(filled, PlaceholdersOf(finds))
               == ReplaceAll(Spell(tokens, PlaceholdersOf(finds)), MappingOf(finds)[k].0, MappingOf(finds)[k].1)
  {
    FillSpells(tokens, k, finds[k].original, PlaceholdersOf(finds));
  }

  ghost predicate NoHole(tokens: Tokens, k: nat) {
    forall i | 0 <= i < |tokens| :: tokens[i] != Hole(k)
  }

  lemma {:induction false} FillClears(tokens: Tokens, p: string, k: nat, o: string)
    requires p != ""
    ensures NoHole(Fill(tokens, p, k, o), k)
    decreases |tokens|
  {
    if tokens != [] {
      FillClears(tokens[Advance(tokens, p, k)..], p, k, o);
    }
  }

  lemma {:induction false} FillKeepsClear(tokens: Tokens, p: string, k: nat, o: string, j: nat)
    requires p != "" && NoHole(tokens, j)
    ensures NoHole(Fill(tokens, p, k, o), j)
    decreases |tokens|
  {
    if tokens != [] {
      FillKeepsClear(tokens[Advance(tokens, p, k)..], p, k, o, j);
    }
  }

  lemma {:induction false} FilledClears(tokens: Tokens, finds: seq<Find>, n: nat, j: nat)
    requires j < n <= |finds|
    ensures NoHole(Filled(tokens, finds, n), j)
  {
    var before := Filled(tokens, finds, n - 1);
    if j == n - 1 {
      FillClears(before, Issued(finds, j), j, finds[j].original);
    } else {
      FilledClears(tokens, finds, n - 1, j);
      FillKeepsClear(before, Issued(finds, n - 1), n - 1, finds[n - 1].original, j);
    }
  }

  lemma {:induction false} RawSpellsAlike(tokens: Tokens, a: seq<string>, b: seq<string>)
    requires forall i | 0 <= i < |tokens| :: tokens[i].Raw?
    ensures Spell(tokens, a) == Spell(tokens, b)
  {
    if tokens != [] {
      RawSpellsAlike(tokens[1..], a, b);
    }
  }

  /** What decoding returns: the original spelling of the tokens after all fillings. */
  lemma DecodedSpelling(tokens: Tokens, finds: seq<Find>)
    requires HolesBelow(tokens, |finds|) && Proper(PlaceholdersOf(finds))
    ensures HolesBelow(Filled(tokens, finds, |finds|), |finds|)
    ensures Decode(Spell(tokens, PlaceholdersOf(finds)), MappingOf(finds), |finds|)
            == Spell(Filled(tokens, finds, |finds|), MatchesOf(finds))
  {
    DecodeTokens(tokens, finds, |finds|);
    var filled := Filled(tokens, finds, |finds|);
    forall i | 0 <= i < |filled| ensures filled[i].Raw? {
      if filled[i].Hole? { FilledClears(tokens, finds, |finds|, filled[i].k); }
    }
    RawSpellsAlike(filled, PlaceholdersOf(finds), MatchesOf(finds));
  }

  // ---------- Hits: the original text taken for a placeholder ----------

  // Filling the true holes restores the text; every hit loses the '<' of a spelled-out placeholder.
  function Angles(s: string): nat {
    if s == "" then 0 else (if s[0] == '<' then 1 else 0) + Angles(s[1..])
  }

  lemma {:induction false} AnglesConcat(a: string, b: string)
    ensures Angles(a + b) == Angles(a) + Angles(b)
  {
    if a == "" {
      assert a + b == b;
    } else {
      assert (a + b)[1..] == a[1..] + b;
      AnglesConcat(a[1..], b);
    }
  }

  lemma {:induction false} NoAnglesCount(s: string)
    requires '<' !in s
    ensures Angles(s) == 0
  {
    if s != "" {
      NoAnglesCount(s[1..]);
    }
  }

  lemma BracketedCount(p: string)
    requires Bracketed(p)
    ensures Angles(p) == 1
  {
    forall i | 0 < i < |p| ensures p[i] != '<' { BracketedInside(p, i); }
    NoAnglesCount(p[1..]);
  }

  lemma SpellSplit(tokens: Tokens, n: nat, pieces: seq<string>)
    requires HolesBelow(tokens, |pieces|) && n <= |tokens|
    ensures Spell(tokens, pieces) == Spell(tokens[..n], pieces) + Spell(tokens[n..], pieces)
  {
    assert tokens == tokens[..n] + tokens[n..];
    SpellConcat(tokens[..n], tokens[n..], pieces);
  }

  // What one step of Fill puts in place of the tokens it consumes.
  function Put(tokens: Tokens, p: string, k: nat, o: string): Tokens
    requires tokens != [] && p != ""
  {
    if tokens[0] == Hole(k) || RawOf(p) <= tokens then RawOf(o) else [tokens[0]]
  }

  lemma PutSpells(tokens: Tokens, p: string, k: nat, matches: seq<string>)
    requires tokens != [] && HolesBelow(tokens, |matches|) && k < |matches| && p != ""
    ensures var front := Spell(tokens[..Advance(tokens, p, k)], matches);
            var put := Put(tokens, p, k, matches[k]);
            && HolesBelow(put, |matches|)
            && if tokens[0] != Hole(k) && RawOf(p) <= tokens
               then front == p && Spell(put, matches) == matches[k]
               else front == Spell(put, matches)
  {
    SpellRaw(matches[k], matches);
    if tokens[0] != Hole(k) && RawOf(p) <= tokens {
      assert tokens[..|p|] == RawOf(p);
      SpellRaw(p, matches);
    } else {
      assert tokens[..1] == [tokens[0]];
      SpellOne(tokens[0], matches);
    }
  }

  /** Filling without hits restores the original spelling. */
  lemma {:induction false} FillRestores(tokens: Tokens, p: string, k: nat, matches: seq<string>)
    requires HolesBelow(tokens, |matches|) && k < |matches| && p != ""
    ensures HolesBelow(Fill(tokens, p, k, matches[k]), |matches|)
    ensures Hits(tokens, p, k) == 0 ==> Spell(Fill(tokens, p, k, matches[k]), matches) == Spell(tokens, matches)
    decreases |tokens|
  {
    FillBelow(tokens, p, k, matches[k], |matches|);
    if tokens != [] {
      var n := Advance(tokens, p, k);
      var put, filled := Put(tokens, p, k, matches[k]), Fill(tokens[n..], p, k, matches[k]);
      FillRestores(tokens[n..], p, k, matches);
      PutSpells(tokens, p, k, matches);
      SpellSplit(tokens, n, matches);
      SpellConcat(put, filled, matches);
    }
  }

  /** Every hit loses one '<' of the original spelling. */
  lemma {:induction false} FillCounts(tokens: Tokens, p: string, k: nat, matches: seq<string>)
    requires HolesBelow(tokens, |matches|) && k < |matches| && Bracketed(p) && NoAngles(matches[k])
    ensures var filled := Fill(tokens, p, k, matches[k]);
            && HolesBelow(filled, |matches|)
            && Angles(Spell(tokens, matches)) == Angles(Spell(filled, matches)) + Hits(tokens, p, k)
    decreases |tokens|
  {
    FillBelow(tokens, p, k, matches[k], |matches|);
    if tokens != [] {
      var n := Advance(tokens, p, k);
      var put, filled := Put(tokens, p, k, matches[k]), Fill(tokens[n..], p, k, matches[k]);
      FillCounts(tokens[n..], p, k, matches);
      PutSpells(tokens, p, k, matches);
      BracketedCount(p);
      NoAnglesCount(matches[k]);
      SpellSplit(tokens, n, matches);
      SpellConcat(put, filled, matches);
      AnglesConcat(Spell(tokens[..n], matches), Spell(tokens[n..], matches));
      AnglesConcat(Spell(put, matches), Spell(filled, matches));
    }
  }

  lemma {:induction false} HitHasRun(tokens: Tokens, p: string, k: nat) returns (j: nat)
    requires p != "" && Hits(tokens, p, k) > 0
    ensures j <= |tokens| && RawOf(p) <= tokens[j..]
    decreases |tokens|
  {
    if tokens[0] != Hole(k) && RawOf(p) <= tokens {
      j := 0;
    } else {
      var i := HitHasRun(tokens[1..], p, k);
      j := i + 1;
      assert tokens[1..][i..] == tokens[j..];
    }
  }

  lemma {:induction false} RunHasHit(tokens: Tokens, p: string, k: nat, j: nat)
    requires p != "" && j <= |tokens| && RawOf(p) <= tokens[j..]
    ensures Hits(tokens, p, k) > 0
    decreases |tokens|
  {
    assert tokens[0..] == tokens;
    assert j == 0 ==> tokens[0] == RawOf(p)[0];
    if tokens[0] == Hole(k) || !(RawOf(p) <= tokens) {
      assert tokens[1..][j - 1..] == tokens[j..];
      RunHasHit(tokens[1..], p, k, j - 1);
    }
  }

  lemma RunOccurs(tokens: Tokens, p: string, j: nat, matches: seq<string>)
    requires HolesBelow(tokens, |matches|) && j <= |tokens| && RawOf(p) <= tokens[j..]
    ensures Occurs(p, Spell(tokens, matches))
  {
    SpellSplit(tokens, j, matches);
    SpellSplit(tokens[j..], |p|, matches);
    assert tokens[j..][..|p|] == RawOf(p);
    SpellRaw(p, matches);
    var front := Spell(tokens[..j], matches);
    assert Spell(tokens, matches)[|front|..] == Spell(tokens[j..], matches);
  }

  // Matches that can be told apart from placeholders.
  ghost predicate Apart(matches: seq<string>, p: string) {
    forall k | 0 <= k < |matches| :: matches[k] != "" && NoAngles(matches[k]) && !Occurs(matches[k], p)
  }

  // The inside of a placeholder at the front of spelled tokens overlaps no match.
  lemma {:induction false} InsideIsRaw(tokens: Tokens, p: string, i: nat, matches: seq<string>)
    requires HolesBelow(tokens, |matches|) && Bracketed(p) && Apart(matches, p)
    requires i <= |p| && p[i..] <= Spell(tokens, matches)
    ensures RawOf(p[i..]) <= tokens
    decreases |p| - i
  {
    if i < |p| {
      if tokens[0].Hole? {
        NoMatchInside(p, "", matches[tokens[0].k], i);
        MatchFits(tokens, p, i, matches);
      } else {
        assert p[i..][1..] == p[i + 1..];
        InsideIsRaw(tokens[1..], p, i + 1, matches);
        assert RawOf(p[i..])[1..] == RawOf(p[i + 1..]);
      }
    }
  }

  lemma MatchFits(tokens: Tokens, p: string, i: nat, matches: seq<string>)
    requires HolesBelow(tokens, |matches|) && tokens != [] && tokens[0].Hole?
    requires Bracketed(p) && i < |p| && p[i..] <= Spell(tokens, matches) && NoAngles(matches[tokens[0].k])
    ensures matches[tokens[0].k] <= p[i..] + ""
  {
    var m, s := matches[tokens[0].k], Spell(tokens, matches);
    assert p[i..] + "" == p[i..];
    assert forall j | 0 <= j < |p| - i :: s[j] == p[i + j];
    assert forall j | 0 <= j < |m| :: s[j] == m[j];
    assert s[|p| - 1 - i] == '>';
    assert forall j | 0 <= j < |m| :: m[j] != '>';
  }

  lemma {:induction false} OccursHasRun(tokens: Tokens, p: string, i: nat, matches: seq<string>) returns (j: nat)
    requires HolesBelow(tokens, |matches|) && Bracketed(p) && Apart(matches, p)
    requires i <= |Spell(tokens, matches)| && p <= Spell(tokens, matches)[i..]
    ensures j <= |tokens| && RawOf(p) <= tokens[j..]
    decreases |tokens|
  {
    var s := Spell(tokens, matches);
    var front := Piece(tokens[0], matches);
    assert s[i] == '<' by { assert s[i..][0] == p[0]; }
    if i == 0 {
      assert p[0..] == p;
      InsideIsRaw(tokens, p, 0, matches);
      j := 0;
    } else {
      assert |front| <= i;
      assert s[i..] == Spell(tokens[1..], matches)[i - |front|..];
      var j' := OccursHasRun(tokens[1..], p, i - |front|, matches);
      j := j' + 1;
      assert tokens[1..][j'..] == tokens[j..];
    }
  }

  // ---------- The main results ----------

  // No step before the n-th takes the original text for a placeholder.
  ghost predicate Clean(tokens: Tokens, finds: seq<Find>, n: nat)
    requires n <= |finds|
  {
    forall k | 0 <= k < n :: Hits(Filled(tokens, finds, k), Issued(finds, k), k) == 0
  }

  // As long as there are no hits the original spelling stays.
  lemma {:induction false} FilledRestores(tokens: Tokens, finds: seq<Find>, n: nat)
    requires n <= |finds| && HolesBelow(tokens, |finds|)
    ensures HolesBelow(Filled(tokens, finds, n), |finds|)
    ensures Clean(tokens, finds, n) ==>
              Spell(Filled(tokens, finds, n), MatchesOf(finds)) == Spell(tokens, MatchesOf(finds))
  {
    if n > 0 {
      FilledRestores(tokens, finds, n - 1);
      FillRestores(Filled(tokens, finds, n - 1), Issued(finds, n - 1), n - 1, MatchesOf(finds));
    }
  }

  lemma CleanMore(tokens: Tokens, finds: seq<Find>, n: nat)
    requires 0 < n <= |finds|
    ensures Clean(tokens, finds, n) <==>
            Clean(tokens, finds, n - 1) && Hits(Filled(tokens, finds, n - 1), Issued(finds, n - 1), n - 1) == 0
  {
  }

  ghost function AnglesLeft(tokens: Tokens, finds: seq<Find>): nat
    requires HolesBelow(tokens, |finds|)
  {
    Angles(Spell(tokens, MatchesOf(finds)))
  }

  // The first n fillings add no brackets to the original spelling, and after a hit some are gone.
  ghost predicate Loses(tokens: Tokens, finds: seq<Find>, n: nat)
    requires n <= |finds| && HolesBelow(tokens, |finds|)
  {
    && HolesBelow(Filled(tokens, finds, n), |finds|)
    && var now, first := AnglesLeft(Filled(tokens, finds, n), finds), AnglesLeft(tokens, finds);
       now <= first && (!Clean(tokens, finds, n) ==> now < first)
  }

  // A hit is never made good.
  lemma {:induction false} FilledLoses(tokens: Tokens, finds: seq<Find>, n: nat)
    requires n <= |finds| && HolesBelow(tokens, |finds|)
    requires forall k | 0 <= k < |finds| :: NoAngles(finds[k].entity) && NoAngles(finds[k].original)
    ensures Loses(tokens, finds, n)
  {
    if n > 0 {
      FilledLoses(tokens, finds, n - 1);
      LosesNext(tokens, finds, n);
    }
  }

  lemma LosesNext(tokens: Tokens, finds: seq<Find>, n: nat)
    requires 0 < n <= |finds| && HolesBelow(tokens, |finds|) && Loses(tokens, finds, n - 1)
    requires NoAngles(finds[n - 1].entity) && NoAngles(finds[n - 1].original)
    ensures Loses(tokens, finds, n)
  {
    FilledStep(tokens, finds, n);
    LosesMore(tokens, finds, n, AnglesLeft(Filled(tokens, finds, n - 1), finds),
              AnglesLeft(Filled(tokens, finds, n), finds), AnglesLeft(tokens, finds));
  }

  lemma LosesMore(tokens: Tokens, finds: seq<Find>, n: nat, before: nat, now: nat, first: nat)
    requires 0 < n <= |finds| && before <= first && (!Clean(tokens, finds, n - 1) ==> before < first)
    requires before == now + Hits(Filled(tokens, finds, n - 1), Issued(finds, n - 1), n - 1)
    ensures now <= first && (!Clean(tokens, finds, n) ==> now < first)
  {
    CleanMore(tokens, finds, n);
  }

  lemma FilledStep(tokens: Tokens, finds: seq<Find>, n: nat)
    requires 0 < n <= |finds| && HolesBelow(Filled(tokens, finds, n - 1), |finds|)
    requires NoAngles(finds[n - 1].entity) && NoAngles(finds[n - 1].original)
    ensures var before, after := Filled(tokens, finds, n - 1), Filled(tokens, finds, n);
            && HolesBelow(after, |finds|)
            && AnglesLeft(before, finds) == AnglesLeft(after, finds) + Hits(before, Issued(finds, n - 1), n - 1)
  {
    FillLoses(Filled(tokens, finds, n - 1), finds, n - 1);
  }

  lemma FillLoses(tokens: Tokens, finds: seq<Find>, k: nat)
    requires k < |finds| && HolesBelow(tokens, |finds|)
    requires NoAngles(finds[k].entity) && NoAngles(finds[k].original)
    ensures var filled := Fill(tokens, Issued(finds, k), k, finds[k].original);
            && HolesBelow(filled, |finds|)
            && AnglesLeft(tokens, finds) == AnglesLeft(filled, finds) + Hits(tokens, Issued(finds, k), k)
  {
    PlaceholderBracketed(finds[k].entity, k);
    FillCounts(tokens, Issued(finds, k), k, MatchesOf(finds));
  }

  // The first hit is a placeholder that the original text spells out.
  lemma CleanIfAbsent(tokens: Tokens, finds: seq<Find>)
    requires HolesBelow(tokens, |finds|)
    requires forall k | 0 <= k < |finds| :: !Occurs(Issued(finds, k), Spell(tokens, MatchesOf(finds)))
    ensures Clean(tokens, finds, |finds|)
  {
    if !Clean(tokens, finds, |finds|) {
      var k := FirstHit(tokens, finds, |finds|);
      FilledRestores(tokens, finds, k);
      var filled := Filled(tokens, finds, k);
      var j := HitHasRun(filled, Issued(finds, k), k);
      RunOccurs(filled, Issued(finds, k), j, MatchesOf(finds));
    }
  }

  lemma AbsentIfClean(tokens: Tokens, finds: seq<Find>, k: nat)
    requires Plain(finds) && HolesBelow(tokens, |finds|) && Clean(tokens, finds, |finds|) && k < |finds|
    ensures !Occurs(Issued(finds, k), Spell(tokens, MatchesOf(finds)))
  {
    var text := Spell(tokens, MatchesOf(finds));
    FilledRestores(tokens, finds, k);
    PlaceholderBracketed(finds[k].entity, k);
    if Occurs(Issued(finds, k), text) {
      var i :| 0 <= i <= |text| && Issued(finds, k) <= text[i..];
      var filled := Filled(tokens, finds, k);
      var j := OccursHasRun(filled, Issued(finds, k), i, MatchesOf(finds));
      RunHasHit(filled, Issued(finds, k), k, j);
    }
  }

  lemma {:induction false} FirstHit(tokens: Tokens, finds: seq<Find>, n: nat) returns (k: nat)
    requires n <= |finds| && !Clean(tokens, finds, n)
    ensures k < n && Clean(tokens, finds, k) && Hits(Filled(tokens, finds, k), Issued(finds, k), k) > 0
  {
    if Clean(tokens, finds, n - 1) {
      k := n - 1;
    } else {
      k := FirstHit(tokens, finds, n - 1);
    }
  }

  // Any anonymized form of a text, with such matches, decodes to it exactly if the text spells out no
  // placeholder.
  lemma DecodesExactly(tokens: Tokens, finds: seq<Find>)
    requires Plain(finds) && HolesBelow(tokens, |finds|)
    ensures var text := Spell(tokens, MatchesOf(finds));
            Decode(Spell(tokens, PlaceholdersOf(finds)), MappingOf(finds), |finds|) == text
            <==> forall k | 0 <= k < |finds| :: !Occurs(Issued(finds, k), text)
  {
    PlaceholdersProper(finds);
    DecodedSpelling(tokens, finds);
    FilledRestores(tokens, finds, |finds|);
    FilledLoses(tokens, finds, |finds|);
    var text := Spell(tokens, MatchesOf(finds));
    if Clean(tokens, finds, |finds|) {
      forall k | 0 <= k < |finds| ensures !Occurs(Issued(finds, k), text) { AbsentIfClean(tokens, finds, k); }
    } else if forall k | 0 <= k < |finds| :: !Occurs(Issued(finds, k), text) {
      CleanIfAbsent(tokens, finds);
    }
  }

  // One direction needs nothing about the matches.
  lemma DecodesIfAbsent(tokens: Tokens, finds: seq<Find>)
    requires HolesBelow(tokens, |finds|) && forall k | 0 <= k < |finds| :: NoAngles(finds[k].entity)
    requires forall k | 0 <= k < |finds| :: !Occurs(Issued(finds, k), Spell(tokens, MatchesOf(finds)))
    ensures Decode(Spell(tokens, PlaceholdersOf(finds)), MappingOf(finds), |finds|) == Spell(tokens, MatchesOf(finds))
  {
    PlaceholdersProper(finds);
    DecodedSpelling(tokens, finds);
    CleanIfAbsent(tokens, finds);
    FilledRestores(tokens, finds, |finds|);
  }

  /**
    The round trip of the pattern branch, for every text and every list of matches that are not empty,
    have no angle brackets and are part of no issued placeholder: decoding restores the text if and
    only if the text contains none of the placeholders that were issued. This holds also when a match
    no longer occurs or first occurs somewhere else than it was found.
  */
  lemma RoundTripExactly(text: string, finds: seq<Find>)
    requires Plain(finds)
    ensures RoundTrip(text, finds) == text <==> forall k | 0 <= k < |finds| :: !Occurs(Issued(finds, k), text)
  {
    var tokens := EncodeTokens(text, finds, |finds|);
    DecodesExactly(tokens, finds);
  }

  /** In particular every text without angle brackets comes back, for such matches. */
  lemma PlainTextRoundTrip(text: string, finds: seq<Find>)
    requires Plain(finds) && NoAngles(text)
    ensures RoundTrip(text, finds) == text
  {
    forall k | 0 <= k < |finds| ensures !Occurs(Issued(finds, k), text) {
      if Occurs(Issued(finds, k), text) {
        OccursFront(Issued(finds, k), text);
      }
    }
    RoundTripExactly(text, finds);
  }

  lemma OccursFront(p: string, s: string)
    requires p != "" && Occurs(p, s)
    ensures p[0] in s
  {
    var i :| 0 <= i <= |s| && p <= s[i..];
    assert s[i..][0] == p[0];
  }
}
