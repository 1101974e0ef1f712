/**
  Anonymized text as tokens: characters of the original text and holes that stand for one
  placeholder each. Replacing on strings is followed on tokens: encoding digs a hole, decoding fills
  the holes of one placeholder, and a placeholder that the original text itself spelled out.
*/
module AnonymizerTokens {
  import opened Anonymizer

  datatype Token = Raw(c: char) | Hole(k: nat)

  type Tokens = seq<Token>

  function RawOf(s: string): Tokens {
    seq(|s|, i requires 0 <= i < |s| => Raw(s[i]))
  }

  ghost predicate HolesBelow(tokens: Tokens, n: nat) {
    forall i | 0 <= i < |tokens| && tokens[i].Hole? :: tokens[i].k < n
  }

  function Piece(token: Token, pieces: seq<string>): string
    requires token.Hole? ==> token.k < |pieces|
  {
    match token
    case Raw(c) => [c]
    case Hole(k) => pieces[k]
  }

  // With the placeholders as pieces this is the anonymized text, with the matches the original one.
  function Spell(tokens: Tokens, pieces: seq<string>): string
    requires HolesBelow(tokens, |pieces|)
  {
    if tokens == [] then "" else Piece(tokens[0], pieces) + Spell(tokens[1..], pieces)
  }

  lemma {:induction false} SpellConcat(a: Tokens, b: Tokens, pieces: seq<string>)
    requires HolesBelow(a, |pieces|) && HolesBelow(b, |pieces|)
    ensures Spell(a + b, pieces) == Spell(a, pieces) + Spell(b, pieces)
  {
    if a == [] {
      assert a + b == b;
    } else {
      assert (a + b)[1..] == a[1..] + b;
      SpellConcat(a[1..], b, pieces);
    }
  }

  lemma {:induction false} SpellRaw(s: string, pieces: seq<string>)
    ensures Spell(RawOf(s), pieces) == s
  {
    if s != "" {
      assert RawOf(s)[1..] == RawOf(s[1..]);
      SpellRaw(s[1..], pieces);
    }
  }

  // ---------- The shape of placeholders ----------

  /** '<', then no angle bracket, then '>'. */
  ghost predicate Bracketed(p: string) {
    |p| >= 2 && p[0] == '<' && p[|p| - 1] == '>' && NoAngles(p[1..|p| - 1])
  }

  ghost predicate Proper(pieces: seq<string>) {
    && (forall k | 0 <= k < |pieces| :: Bracketed(pieces[k]))
    && (forall j, k | 0 <= j < k < |pieces| :: pieces[j] != pieces[k])
  }

  lemma BracketedInside(p: string, i: nat)
    requires Bracketed(p) && 0 < i < |p|
    ensures p[i] != '<' && (i < |p| - 1 ==> p[i] != '>')
  {
    if i < |p| - 1 {
      assert p[i] == p[1..|p| - 1][i - 1];
    }
  }

  // Two placeholders at the same place are the same placeholder.
  lemma BracketedPrefix(p: string, q: string, rest: string)
    requires Bracketed(p) && Bracketed(q) && p <= q + rest
    ensures p == q
  {
    var s := q + rest;
    assert forall i | 0 <= i < |p| :: s[i] == p[i];
    assert forall i | 0 <= i < |q| :: s[i] == q[i];
    if |p| < |q| {
      BracketedInside(q, |p| - 1);
    } else if |q| < |p| {
      BracketedInside(p, |q| - 1);
    }
  }

  // ---------- Encoding digs a hole ----------

  // A string without '<' at the front of spelled tokens comes from raw tokens, or reaches no hole.
  lemma {:induction false} FrontIsRaw(tokens: Tokens, p: string, pieces: seq<string>)
    requires HolesBelow(tokens, |pieces|) && Proper(pieces) && '<' !in p && p <= Spell(tokens, pieces)
    ensures RawOf(p) <= tokens
  {
    if p != "" {
      assert p[0] == Spell(tokens, pieces)[0];
      if tokens[0].Raw? {
        FrontIsRaw(tokens[1..], p[1..], pieces);
        assert RawOf(p)[1..] == RawOf(p[1..]);
      }
    }
  }

  lemma {:induction false} SkipFirst(front: string, rest: string, p: string, r: string)
    requires forall i | 0 <= i < |front| :: !(p <= front[i..] + rest)
    ensures ReplaceFirst(front + rest, p, r) == front + ReplaceFirst(rest, p, r)
  {
    if front == "" {
      assert front + rest == rest;
    } else {
      assert front[0..] == front;
      assert (front + rest)[1..] == front[1..] + rest;
      forall i | 0 <= i < |front[1..]| ensures !(p <= front[1..][i..] + rest) {
        assert front[1..][i..] == front[i + 1..];
      }
      SkipFirst(front[1..], rest, p, r);
    }
  }

  // A match never starts inside a placeholder.
  lemma NoMatchInside(q: string, rest: string, m: string, i: nat)
    requires Bracketed(q) && m != "" && NoAngles(m) && !Occurs(m, q) && i < |q|
    ensures !(m <= q[i..] + rest)
  {
    assert !(m <= q[i..]);
    if |m| > |q| - i {
      assert (q[i..] + rest)[|q| - 1 - i] == q[|q| - 1];
    }
  }

  lemma FrontForHole(m: string, n: nat, rest: Tokens, pieces: seq<string>)
    requires HolesBelow(rest, |pieces|) && n < |pieces|
    ensures Spell(RawOf(m) + rest, pieces) == m + Spell(rest, pieces)
    ensures Spell([Hole(n)] + rest, pieces) == pieces[n] + Spell(rest, pieces)
  {
    SpellConcat(RawOf(m), rest, pieces);
    SpellRaw(m, pieces);
    assert ([Hole(n)] + rest)[1..] == rest;
  }

  /** Replacing a match turns its characters into a hole, wherever its first occurrence is. */
  lemma {:induction false} DigHole(tokens: Tokens, m: string, n: nat, placeholders: seq<string>, matches: seq<string>)
    returns (dug: Tokens)
    requires |placeholders| == |matches| && n < |matches| && m == matches[n]
    requires HolesBelow(tokens, n) && Proper(placeholders)
    requires m != "" && NoAngles(m) && forall k | 0 <= k < |placeholders| :: !Occurs(m, placeholders[k])
    ensures HolesBelow(dug, n + 1)
    ensures Spell(dug, placeholders) == ReplaceFirst(Spell(tokens, placeholders), m, placeholders[n])
    ensures Spell(dug, matches) == Spell(tokens, matches)
  {
    var s := Spell(tokens, placeholders);
    if tokens == [] {
      dug := [];
    } else if m <= s {
      FrontIsRaw(tokens, m, placeholders);
      var rest := tokens[|m|..];
      assert tokens == RawOf(m) + rest;
      dug := [Hole(n)] + rest;
      FrontForHole(m, n, rest, placeholders);
      FrontForHole(m, n, rest, matches);
    } else {
      var tail := DigHole(tokens[1..], m, n, placeholders, matches);
      dug := [tokens[0]] + tail;
      assert dug[1..] == tail;
      var front := Piece(tokens[0], placeholders);
      var rest := Spell(tokens[1..], placeholders);
      forall i | 0 <= i < |front| ensures !(m <= front[i..] + rest) {
        if tokens[0].Hole? {
          NoMatchInside(front, rest, m, i);
        } else {
          assert front[i..] + rest == s;
        }
      }
      SkipFirst(front, rest, m, placeholders[n]);
    }
  }

  // ---------- Decoding fills holes ----------

  /** What replacing every placeholder `p` of hole `k` by `o` does to the tokens. */
  function Fill(tokens: Tokens, p: string, k: nat, o: string): Tokens
    requires p != ""
    decreases |tokens|
  {
    if tokens == [] then []
    else if tokens[0] == Hole(k) then RawOf(o) + Fill(tokens[1..], p, k, o)
    else if RawOf(p) <= tokens then RawOf(o) + Fill(tokens[|p|..], p, k, o)
    else [tokens[0]] + Fill(tokens[1..], p, k, o)
  }

  // How often the original text's own characters are taken for the placeholder.
  function Hits(tokens: Tokens, p: string, k: nat): nat
    requires p != ""
    decreases |tokens|
  {
    if tokens == [] then 0
    else if tokens[0] == Hole(k) then Hits(tokens[1..], p, k)
    else if RawOf(p) <= tokens then 1 + Hits(tokens[|p|..], p, k)
    else Hits(tokens[1..], p, k)
  }

  lemma {:induction false} SkipAll(front: string, rest: string, p: string, r: string)
    requires p != "" && forall i | 0 <= i < |front| :: !(p <= front[i..] + rest)
    ensures ReplaceAll(front + rest, p, r) == front + ReplaceAll(rest, p, r)
  {
    if front == "" {
      assert front + rest == rest;
    } else {
      assert front[0..] == front;
      assert (front + rest)[1..] == front[1..] + rest;
      forall i | 0 <= i < |front[1..]| ensures !(p <= front[1..][i..] + rest) {
        assert front[1..][i..] == front[i + 1..];
      }
      SkipAll(front[1..], rest, p, r);
    }
  }

  // A placeholder never starts inside another one.
  lemma NoPlaceholderInside(q: string, rest: string, p: string, i: nat)
    requires Bracketed(p) && Bracketed(q) && p != q && i < |q|
    ensures !(p <= q[i..] + rest)
  {
    assert (q[i..] + rest)[0] == q[i];
    if i > 0 {
      BracketedInside(q, i);
    } else if p <= q[i..] + rest {
      assert q[0..] == q;
      BracketedPrefix(p, q, rest);
    }
  }

  // A placeholder that starts at a raw token is spelled by raw tokens only.
  lemma PlaceholderIsRaw(tokens: Tokens, p: string, pieces: seq<string>)
    requires HolesBelow(tokens, |pieces|) && Proper(pieces) && Bracketed(p)
    requires tokens != [] && tokens[0].Raw? && p <= Spell(tokens, pieces)
    ensures RawOf(p) <= tokens
  {
    forall i | 0 < i < |p| ensures p[i] != '<' { BracketedInside(p, i); }
    FrontIsRaw(tokens[1..], p[1..], pieces);
    assert RawOf(p)[1..] == RawOf(p[1..]);
  }

  // A hole or a spelled-out placeholder at the front is replaced.
  lemma FillReplaces(tokens: Tokens, next: nat, k: nat, o: string, pieces: seq<string>)
    requires HolesBelow(tokens, |pieces|) && Proper(pieces) && k < |pieces| && next <= |tokens|
    requires Spell(tokens[..next], pieces) == pieces[k]
    ensures ReplaceAll(Spell(tokens, pieces), pieces[k], o)
            == o + ReplaceAll(Spell(tokens[next..], pieces), pieces[k], o)
  {
    var p, rest := pieces[k], Spell(tokens[next..], pieces);
    assert tokens == tokens[..next] + tokens[next..];
    SpellConcat(tokens[..next], tokens[next..], pieces);
    assert (p + rest)[|p|..] == rest;
  }

  lemma {:induction false} FillBelow(tokens: Tokens, p: string, k: nat, o: string, n: nat)
    requires p != "" && HolesBelow(tokens, n)
    ensures HolesBelow(Fill(tokens, p, k, o), n)
    decreases |tokens|
  {
    if tokens != [] {
      FillBelow(tokens[Advance(tokens, p, k)..], p, k, o, n);
    }
  }

  // How many tokens one step of Fill consumes.
  function Advance(tokens: Tokens, p: string, k: nat): (n: nat)
    requires tokens != [] && p != ""
    ensures 0 < n <= |tokens|
  {
    if tokens[0] != Hole(k) && RawOf(p) <= tokens then |p| else 1
  }

  lemma FrontSpells(tokens: Tokens, k: nat, pieces: seq<string>)
    requires HolesBelow(tokens, |pieces|) && Proper(pieces) && k < |pieces| && tokens != []
    requires tokens[0] == Hole(k) || RawOf(pieces[k]) <= tokens
    ensures Spell(tokens[..Advance(tokens, pieces[k], k)], pieces) == pieces[k]
  {
    if tokens[0] == Hole(k) {
      SpellOne(Hole(k), pieces);
      assert tokens[..1] == [Hole(k)];
    } else {
      SpellRaw(pieces[k], pieces);
      assert tokens[..|pieces[k]|] == RawOf(pieces[k]);
    }
  }

  lemma SpellOne(token: Token, pieces: seq<string>)
    requires HolesBelow([token], |pieces|)
    ensures token.Hole? ==> token.k < |pieces|
    ensures Spell([token], pieces) == Piece(token, pieces)
  {
    assert [token][0] == token && [token][1..] == [];
  }

  /** One decoding step on the string is filling on the tokens. */
  lemma {:induction false} FillSpells(tokens: Tokens, k: nat, o: string, pieces: seq<string>)
    requires HolesBelow(tokens, |pieces|) && Proper(pieces) && k < |pieces|
    ensures HolesBelow(Fill(tokens, pieces[k], k, o), |pieces|)
    ensures Spell(Fill(tokens, pieces[k], k, o), pieces) == ReplaceAll(Spell(tokens, pieces), pieces[k], o)
    decreases |tokens|
  {
    FillBelow(tokens, pieces[k], k, o, |pieces|);
    if tokens != [] {
      var next := Advance(tokens, pieces[k], k);
      var filled := Fill(tokens[next..], pieces[k], k, o);
      FillSpells(tokens[next..], k, o, pieces);
      if tokens[0] == Hole(k) || RawOf(pieces[k]) <= tokens {
        FrontSpells(tokens, k, pieces);
        FillReplaces(tokens, next, k, o, pieces);
        SpellConcat(RawOf(o), filled, pieces);
        SpellRaw(o, pieces);
      } else {
        FillKeeps(tokens, k, o, pieces);
        SpellConcat([tokens[0]], filled, pieces);
        SpellOne(tokens[0], pieces);
      }
    }
  }

  // A token that is neither the hole nor the start of a spelled-out placeholder stays.
  lemma FillKeeps(tokens: Tokens, k: nat, o: string, pieces: seq<string>)
    requires HolesBelow(tokens, |pieces|) && Proper(pieces) && k < |pieces| && tokens != []
    requires tokens[0] != Hole(k) && !(RawOf(pieces[k]) <= tokens)
    ensures ReplaceAll(Spell(tokens, pieces), pieces[k], o)
            == Piece(tokens[0], pieces) + ReplaceAll(Spell(tokens[1..], pieces), pieces[k], o)
  {
    var front, rest := Piece(tokens[0], pieces), Spell(tokens[1..], pieces);
    forall i | 0 <= i < |front| ensures !(pieces[k] <= front[i..] + rest) {
      match tokens[0]
      case Hole(j) => NoPlaceholderInside(front, rest, pieces[k], i);
      case Raw(c) =>
        assert front[i..] + rest == Spell(tokens, pieces);
        if pieces[k] <= front[i..] + rest {
          PlaceholderIsRaw(tokens, pieces[k], pieces);
        }
    }
    SkipAll(front, rest, pieces[k], o);
  }
}
