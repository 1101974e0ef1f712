/**
  The line-aware splitter of `api/telegram_bot.py`: a message that is too long for one Telegram
  message is cut at line ends into chunks, filling each chunk greedily.
*/
module MessageSplitter {

  const MAX: nat := 4000

  // ---------- Lines ----------

  /** text.split("\n") */
  function Lines(text: string): (lines: seq<string>)
    ensures lines != []
  {
    if text == "" then [""] else WithFirst(text[0], Lines(text[1..]))
  }

  // The lines of a text with one more character in front.
  function WithFirst(c: char, lines: seq<string>): (longer: seq<string>)
    requires lines != []
    ensures longer != []
  {
    if c == '\n' then [""] + lines else [[c] + lines[0]] + lines[1..]
  }

  /** "\n".join(lines) */
  function Join(lines: seq<string>): string {
    if lines == [] then ""
    else if |lines| == 1 then lines[0]
    else Join(lines[..|lines| - 1]) + "\n" + lines[|lines| - 1]
  }

  // ---------- The loop ----------

  datatype Split = Split(chunks: seq<string>, current: string)

  function Feed(s: Split, line: string): Split {
    if |s.current| + |line| + 1 > MAX
    then Split(if s.current != "" then s.chunks + [s.current] else s.chunks, line)
    else s.(current := s.current + (if s.current != "" then "\n" else "") + line)
  }

  function FeedAll(lines: seq<string>): Split {
    if lines == [] then Split([], "") else Feed(FeedAll(lines[..|lines| - 1]), lines[|lines| - 1])
  }

  function Finish(s: Split): seq<string> {
    if s.current != "" then s.chunks + [s.current] else s.chunks
  }

  /** The messages that send_safe sends for a text. */
  function Chunks(text: string): seq<string> {
    if |text| <= MAX then [text] else Finish(FeedAll(Lines(text)))
  }

  method SplitMessage(text: string) returns (chunks: seq<string>)
    ensures chunks == Chunks(text)
  {
    if |text| <= MAX {
      return [text];
    }
    var lines := Lines(text);
    var current := "";
    chunks := [];
    var i := 0;
    while i < |lines|
      invariant 0 <= i <= |lines| && Split(chunks, current) == FeedAll(lines[..i])
    {
      var line := lines[i];
      if |current| + |line| + 1 > MAX {
        if current != "" {
          chunks := chunks + [current];
        }
        current := line;
      } else {
        current := current + (if current != "" then "\n" else "") + line;
      }
      assert lines[..i + 1][..i] == lines[..i];
      i := i + 1;
    }
    assert lines[..i] == lines;
    if current != "" {
      chunks := chunks + [current];
    }
  }

  // ---------- Joining and splitting ----------

  lemma JoinMore(parts: seq<string>, part: string)
    requires parts != []
    ensures Join(parts + [part]) == Join(parts) + "\n" + part
  {
    assert (parts + [part])[..|parts|] == parts;
  }

  lemma {:induction false} JoinFront(line: string, lines: seq<string>)
    requires lines != []
    ensures Join([line] + lines) == line + "\n" + Join(lines)
  {
    if |lines| > 1 {
      var front := lines[..|lines| - 1];
      JoinFront(line, front);
      assert ([line] + lines)[..|lines|] == [line] + front;
    } else {
      assert ([line] + lines)[..1] == [line];
    }
  }

  lemma {:induction false} JoinOfLines(text: string)
    ensures Join(Lines(text)) == text
  {
    if text != "" {
      var rest := Lines(text[1..]);
      JoinOfLines(text[1..]);
      if text[0] == '\n' {
        JoinFront("", rest);
      } else if |rest| > 1 {
        assert rest == [rest[0]] + rest[1..];
        JoinFront(rest[0], rest[1..]);
        JoinFront([text[0]] + rest[0], rest[1..]);
      }
    }
  }

  lemma {:induction false} LinesConcat(a: string, b: string)
    ensures Lines(a + "\n" + b) == Lines(a) + Lines(b)
  {
    var whole := a + "\n" + b;
    if a == "" {
      assert whole[1..] == b;
    } else {
      assert whole[1..] == a[1..] + "\n" + b;
      LinesConcat(a[1..], b);
      FirstCharacter(a[0], Lines(a[1..]), Lines(b));
      assert Lines(whole) == WithFirst(a[0], Lines(whole[1..]));
    }
  }

  lemma FirstCharacter(c: char, a: seq<string>, b: seq<string>)
    requires a != []
    ensures WithFirst(c, a + b) == WithFirst(c, a) + b
  {
    assert (a + b)[1..] == a[1..] + b;
  }

  lemma {:induction false} NoNewline(text: string)
    ensures forall i | 0 <= i < |Lines(text)| :: '\n' !in Lines(text)[i]
  {
    if text != "" {
      NoNewline(text[1..]);
    }
  }

  lemma {:induction false} SingleLine(line: string)
    requires '\n' !in line
    ensures Lines(line) == [line]
  {
    if line != "" {
      SingleLine(line[1..]);
      assert line[0] in line;
      assert [line[0]] + line[1..] == line;
    }
  }

  // ---------- Chunk sizes ----------

  ghost predicate Fits(parts: seq<string>) {
    forall i | 0 <= i < |parts| :: |parts[i]| <= 4000
  }

  lemma {:induction false} FittingLinesFit(lines: seq<string>)
    requires Fits(lines)
    ensures Fits(FeedAll(lines).chunks) && |FeedAll(lines).current| <= MAX
  {
    if lines != [] {
      FittingLinesFit(lines[..|lines| - 1]);
    }
  }

  // A line that is too long becomes a chunk of its own.
  lemma {:induction false} LongLineStays(lines: seq<string>, i: nat)
    requires i < |lines| && |lines[i]| > MAX
    ensures lines[i] in Finish(FeedAll(lines))
    ensures i < |lines| - 1 ==> lines[i] in FeedAll(lines).chunks
  {
    var front := lines[..|lines| - 1];
    if i < |lines| - 1 {
      LongLineStays(front, i);
      assert FeedAll(lines) == Feed(FeedAll(front), lines[|lines| - 1]);
      if i < |front| - 1 {
        assert lines[i] in FeedAll(front).chunks;
      } else {
        assert FeedAll(front).current == lines[i];
        assert FeedAll(lines).chunks[|FeedAll(lines).chunks| - 1] == lines[i];
      }
    } else {
      assert Finish(FeedAll(lines))[|Finish(FeedAll(lines))| - 1] == lines[i];
    }
  }

  lemma {:induction false} LinesWithin(text: string)
    ensures forall i | 0 <= i < |Lines(text)| :: |Lines(text)[i]| <= |text|
  {
    if text != "" {
      LinesWithin(text[1..]);
    }
  }

  /** The size bound, exactly: every chunk fits into a message if and only if every line does. */
  lemma ChunksFitExactly(text: string)
    ensures Fits(Chunks(text)) <==> Fits(Lines(text))
  {
    var lines := Lines(text);
    if |text| <= MAX {
      LinesWithin(text);
    } else if Fits(lines) {
      FittingLinesFit(lines);
    } else {
      var i :| 0 <= i < |lines| && |lines[i]| > MAX;
      LongLineStays(lines, i);
    }
  }

  // ---------- Content ----------

  function NonBlank(lines: seq<string>): seq<string> {
    if lines == [] then []
    else NonBlank(lines[..|lines| - 1]) + (if lines[|lines| - 1] == "" then [] else [lines[|lines| - 1]])
  }

  lemma {:induction false} NonBlankConcat(a: seq<string>, b: seq<string>)
    ensures NonBlank(a + b) == NonBlank(a) + NonBlank(b)
  {
    if b == [] {
      assert a + b == a;
    } else {
      assert (a + b)[..|a + b| - 1] == a + b[..|b| - 1];
      NonBlankConcat(a, b[..|b| - 1]);
    }
  }

  // A newline only separates.
  lemma SeparatedLines(a: string, b: string)
    ensures NonBlank(Lines(a + "\n" + b)) == NonBlank(Lines(a)) + NonBlank(Lines(b))
  {
    LinesConcat(a, b);
    NonBlankConcat(Lines(a), Lines(b));
  }

  lemma AppendedLines(current: string, line: string)
    requires '\n' !in line
    ensures NonBlank(Lines(current + (if current != "" then "\n" else "") + line))
            == NonBlank(Lines(current)) + NonBlank([line])
  {
    SingleLine(line);
    if current != "" {
      LinesConcat(current, line);
      NonBlankConcat(Lines(current), [line]);
    } else {
      assert current + "" + line == line;
    }
  }

  function FedSoFar(s: Split): seq<string> {
    NonBlank(Lines(Join(s.chunks))) + NonBlank(Lines(s.current))
  }

  // Finishing the current chunk adds its non-blank lines.
  lemma FinishLines(s: Split)
    ensures NonBlank(Lines(Join(Finish(s)))) == FedSoFar(s)
  {
    assert NonBlank(Lines("")) == [];
    if s.current != "" && s.chunks != [] {
      JoinMore(s.chunks, s.current);
      SeparatedLines(Join(s.chunks), s.current);
    } else if s.current != "" {
      assert s.chunks + [s.current] == [s.current];
    }
  }

  lemma FedOneMore(s: Split, line: string)
    requires '\n' !in line
    ensures FedSoFar(Feed(s, line)) == FedSoFar(s) + NonBlank([line])
  {
    if |s.current| + |line| + 1 > MAX {
      SingleLine(line);
      FinishLines(s);
      assert Feed(s, line) == Split(Finish(s), line);
    } else {
      AppendedLines(s.current, line);
    }
  }

  // All that was fed is in the finished chunks and the current one.
  lemma {:induction false} FedLines(lines: seq<string>)
    requires forall i | 0 <= i < |lines| :: '\n' !in lines[i]
    ensures FedSoFar(FeedAll(lines)) == NonBlank(lines)
  {
    if lines == [] {
      assert Lines("") == [""];
    } else {
      FedLines(lines[..|lines| - 1]);
      FedOneMore(FeedAll(lines[..|lines| - 1]), lines[|lines| - 1]);
      NonBlankConcat(lines[..|lines| - 1], [lines[|lines| - 1]]);
      assert lines == lines[..|lines| - 1] + [lines[|lines| - 1]];
    }
  }

  /** For every text, exactly the blank lines may be lost: all others arrive, in order, unchanged. */
  lemma NonBlankLinesKept(text: string)
    ensures NonBlank(Lines(Join(Chunks(text)))) == NonBlank(Lines(text))
  {
    if |text| > MAX {
      NoNewline(text);
      FedLines(Lines(text));
      FinishLines(FeedAll(Lines(text)));
    }
  }

  // Every blank line finds a current chunk that is neither empty nor full.
  ghost predicate BlanksHaveRoom(lines: seq<string>) {
    forall i | 0 <= i < |lines| && lines[i] == "" :: 0 < |FeedAll(lines[..i]).current| < MAX
  }

  lemma RoomPrefix(lines: seq<string>)
    requires lines != []
    ensures var front := lines[..|lines| - 1];
            BlanksHaveRoom(lines) <==>
            (BlanksHaveRoom(front) && (lines[|lines| - 1] == "" ==> 0 < |FeedAll(front).current| < MAX))
  {
    var front := lines[..|lines| - 1];
    assert forall i | 0 <= i < |front| :: front[..i] == lines[..i];
  }

  // Appending to the last part appends to the join.
  lemma JoinGrow(parts: seq<string>, part: string, more: string)
    ensures Join(parts + [part + more]) == Join(parts + [part]) + more
  {
    if parts != [] {
      JoinMore(parts, part);
      JoinMore(parts, part + more);
    }
  }

  // Without a blank line in the wrong place the chunks join to the text; otherwise they are shorter.
  lemma {:induction false} JoinedSoFar(lines: seq<string>)
    requires lines != []
    ensures var s := FeedAll(lines);
            var sent := Join(Finish(s));
            if BlanksHaveRoom(lines) then sent == Join(lines) && s.current != ""
            else |sent| < |Join(lines)| + (if sent == "" then 1 else 0)
  {
    RoomPrefix(lines);
    var front, line := lines[..|lines| - 1], lines[|lines| - 1];
    var before, after := FeedAll(front), FeedAll(lines);
    assert Join(lines) == if front == [] then line else Join(front) + "\n" + line;
    if front == [] {
      assert after.chunks == [] && after.current == line;
      assert Finish(after) == if line == "" then [] else [line];
    } else {
      JoinedSoFar(front);
      JoinedStep(before, line);
    }
  }

  // One more line adds a newline and the line, unless it is blank and finds no room.
  lemma JoinedStep(s: Split, line: string)
    ensures var before, after := Join(Finish(s)), Join(Finish(Feed(s, line)));
            && (s.current != "" && (line == "" ==> |s.current| < MAX) ==> after == before + "\n" + line)
            && |after| <= |before| + 1 + |line|
            && (line == "" && !(0 < |s.current| < MAX) ==> after == before)
  {
    var t := Feed(s, line);
    if |s.current| + |line| + 1 > MAX {
      var done := Finish(s);
      assert t.chunks == done;
      if line != "" && done != [] {
        JoinMore(done, line);
      } else if line != "" {
        assert done + [line] == [line];
      }
    } else if s.current != "" {
      JoinGrow(s.chunks, s.current, "\n" + line);
      assert s.current + "\n" + line == s.current + ("\n" + line);
    } else {
      assert t.current == line;
      if line != "" && s.chunks != [] {
        JoinMore(s.chunks, line);
      } else if line != "" {
        assert s.chunks + [line] == [line];
      }
    }
  }

  /**
    Content preservation, exactly: a text of at most 4000 characters is sent as it is, and the chunks
    of a longer one join to the text if and only if every blank line finds a current chunk that is
    neither empty nor full.
  */
  lemma JoinsBackExactly(text: string)
    ensures |text| <= 4000 ==> Chunks(text) == [text]
    ensures Join(Chunks(text)) == text <==> |text| <= 4000 || BlanksHaveRoom(Lines(text))
  {
    JoinOfLines(text);
    JoinedSoFar(Lines(text));
  }

  /** In particular a text without blank lines arrives unchanged. */
  lemma NoBlankLinesJoinsBack(text: string)
    requires forall i | 0 <= i < |Lines(text)| :: Lines(text)[i] != ""
    ensures Join(Chunks(text)) == text
  {
    JoinsBackExactly(text);
  }

  // ---------- Optimality ----------

  function Flatten(groups: seq<seq<string>>): seq<string> {
    if groups == [] then [] else Flatten(groups[..|groups| - 1]) + groups[|groups| - 1]
  }

  /** A way to cut lines into messages: contiguous groups of lines that each fit. */
  ghost predicate Grouping(groups: seq<seq<string>>, lines: seq<string>) {
    && Flatten(groups) == lines
    && forall g | 0 <= g < |groups| :: groups[g] != [] && |Join(groups[g])| <= 4000
  }

  // The greedy loop never has more chunks open than any grouping of the same lines, and when it has
  // as many, its last chunk is no longer.
  lemma {:induction false} StaysAhead(groups: seq<seq<string>>, lines: seq<string>)
    requires Grouping(groups, lines) && lines != []
    ensures groups != []
    ensures var s, last := FeedAll(lines), groups[|groups| - 1];
            && |s.chunks| + 1 <= |groups|
            && (|s.chunks| + 1 == |groups| ==> |s.current| <= |Join(last)|)
    decreases |lines|
  {
    var n := |groups|;
    var last := groups[n - 1];
    var front, line := lines[..|lines| - 1], lines[|lines| - 1];
    assert last[|last| - 1] == line;
    var fewer := groups[..n - 1];
    if |last| == 1 {
      assert last == [line];
      assert Flatten(fewer) == front;
      if front != [] {
        StaysAhead(fewer, front);
      }
    } else {
      var shorter := last[..|last| - 1];
      assert Join(last) == Join(shorter) + "\n" + line;
      var groups' := fewer + [shorter];
      assert groups'[..n - 1] == fewer;
      assert Flatten(groups') == Flatten(fewer) + shorter == front;
      StaysAhead(groups', front);
    }
  }

  /**
    Optimality: whatever the text, no way of cutting it at line ends into messages that fit uses
    fewer messages than the splitter sends.
  */
  lemma FewestChunks(text: string, groups: seq<seq<string>>)
    requires Grouping(groups, Lines(text))
    ensures |Chunks(text)| <= |groups|
  {
    StaysAhead(groups, Lines(text));
  }
}
