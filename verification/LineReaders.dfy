/** The line buffers of the agent runtimes: text arrives in chunks cut anywhere, and must come
 *  out as the same lines as if it had arrived at once. */
module LineReaders {
  // ------------------------------------------------------------- lines of a text

  // The lines of a text that are ended by a newline, and what comes after the last newline.
  function RawLines(text: string): seq<string> {
    if text == "" then []
    else
      var front := text[..|text| - 1];
      RawLines(front) + (if text[|text| - 1] == '\n' then [Rest(front)] else [])
  }

  function Rest(text: string): string {
    if text == "" || text[|text| - 1] == '\n' then ""
    else Rest(text[..|text| - 1]) + [text[|text| - 1]]
  }

  function Strip(line: string): string {
    if line != "" && line[|line| - 1] == '\r' then line[..|line| - 1] else line
  }

  function StripAll(raw: seq<string>): seq<string> {
    seq(|raw|, i requires 0 <= i < |raw| => Strip(raw[i]))
  }

  function Lines(text: string): seq<string> { StripAll(RawLines(text)) }

  // The white space that String.prototype.trim takes away.
  predicate IsSpace(c: char) {
    || '\t' <= c <= '\r' || c == ' ' || c == '\U{A0}' || c == '\U{1680}' || '\U{2000}' <= c <= '\U{200A}'
    || c == '\U{2028}' || c == '\U{2029}' || c == '\U{202F}' || c == '\U{205F}' || c == '\U{3000}' || c == '\U{FEFF}'
  }

  function TrimEnd(line: string): string {
    if line != "" && IsSpace(line[|line| - 1]) then TrimEnd(line[..|line| - 1]) else line
  }

  function TrimStart(line: string): string {
    if line != "" && IsSpace(line[0]) then TrimStart(line[1..]) else line
  }

  function Trim(line: string): string { TrimStart(TrimEnd(line)) }

  // The trimmed lines that are not blank.
  function NonBlank(lines: seq<string>): seq<string> {
    if lines == [] then []
    else
      var t := Trim(lines[|lines| - 1]);
      NonBlank(lines[..|lines| - 1]) + (if t == "" then [] else [t])
  }

  // ---------------------------------------------------------------- the proofs

  ghost predicate NoNewline(text: string) { forall i :: 0 <= i < |text| ==> text[i] != '\n' }

  lemma {:induction false} OneLine(text: string)
    requires NoNewline(text)
    ensures RawLines(text) == [] && Rest(text) == text
  {
    if text != "" {
      OneLine(text[..|text| - 1]);
      assert text == text[..|text| - 1] + [text[|text| - 1]];
    }
  }

  lemma {:induction false} RestHasNoNewline(text: string)
    ensures NoNewline(Rest(text))
  {
    if text != "" { RestHasNoNewline(text[..|text| - 1]); }
  }

  // A text is read the same in one go and after the carried rest of its beginning.
  lemma {:induction false} LinesOfConcat(a: string, b: string)
    ensures RawLines(a + b) == RawLines(a) + RawLines(Rest(a) + b)
    ensures Rest(a + b) == Rest(Rest(a) + b)
  {
    if b == "" {
      RestHasNoNewline(a);
      OneLine(Rest(a));
      assert a + b == a && Rest(a) + b == Rest(a);
    } else {
      var front, c := b[..|b| - 1], b[|b| - 1];
      LinesOfConcat(a, front);
      assert (a + b)[..|a + b| - 1] == a + front;
      assert (Rest(a) + b)[..|Rest(a) + b| - 1] == Rest(a) + front;
    }
  }

  lemma StripAllOfConcat(a: seq<string>, b: seq<string>)
    ensures StripAll(a + b) == StripAll(a) + StripAll(b)
  {
  }

  lemma StrippedConcat(a: string, b: string)
    ensures Lines(a + b) == Lines(a) + Lines(Rest(a) + b)
  {
    LinesOfConcat(a, b);
    StripAllOfConcat(RawLines(a), RawLines(Rest(a) + b));
  }

  // ------------------------------------------------------------------ theorems

  function Glue(chunks: seq<string>): string {
    if chunks == [] then "" else Glue(chunks[..|chunks| - 1]) + chunks[|chunks| - 1]
  }

  // What a reader has put out, and what it keeps for the next chunk.
  datatype Reader = Reader(lines: seq<string>, rest: string)

  function Feed(chunks: seq<string>): Reader {
    if chunks == [] then Reader([], "")
    else
      var r := Feed(chunks[..|chunks| - 1]);
      var buf := r.rest + chunks[|chunks| - 1];
      Reader(r.lines + Lines(buf), Rest(buf))
  }

  /** However the text is cut into chunks, also between a CR and its LF, the lines put out
   *  and the rest kept are those of the whole text. */
  lemma {:induction false} ChunksDoNotMatter(chunks: seq<string>)
    ensures Feed(chunks) == Reader(Lines(Glue(chunks)), Rest(Glue(chunks)))
  {
    if chunks != [] {
      var front, last := chunks[..|chunks| - 1], chunks[|chunks| - 1];
      ChunksDoNotMatter(front);
      StrippedConcat(Glue(front), last);
      LinesOfConcat(Glue(front), last);
    }
  }

  function Joined(lines: seq<string>): string {
    if lines == [] then "" else Joined(lines[..|lines| - 1]) + lines[|lines| - 1] + "\n"
  }

  // Nothing of the text is lost: the lines, each with its newline, and the rest make it up.
  lemma {:induction false} LinesMakeUpTheText(text: string)
    ensures Joined(RawLines(text)) + Rest(text) == text
    ensures NoNewline(Rest(text))
    ensures forall i :: 0 <= i < |RawLines(text)| ==> NoNewline(RawLines(text)[i])
  {
    if text != "" {
      var front, c := text[..|text| - 1], text[|text| - 1];
      LinesMakeUpTheText(front);
      assert text == front + [c];
      if c == '\n' {
        assert RawLines(text)[..|RawLines(text)| - 1] == RawLines(front);
        assert Joined(RawLines(front)) + Rest(front) + "\n" == text;
      } else {
        assert RawLines(text) == RawLines(front);
        assert Joined(RawLines(front)) + (Rest(front) + [c]) == Joined(RawLines(front)) + Rest(front) + [c];
      }
    }
  }

  // And no other newline-free lines and rest make up that text.
  lemma {:induction false} LinesAreUnique(lines: seq<string>, rest: string)
    requires NoNewline(rest) && forall i :: 0 <= i < |lines| ==> NoNewline(lines[i])
    ensures RawLines(Joined(lines) + rest) == lines && Rest(Joined(lines) + rest) == rest
  {
    if lines == [] {
      OneLine(rest);
      assert Joined(lines) + rest == rest;
    } else {
      var front, last := lines[..|lines| - 1], lines[|lines| - 1];
      LinesAreUnique(front, last);
      var ended := Joined(front) + last + "\n";
      assert ended[..|ended| - 1] == Joined(front) + last;
      LinesOfConcat(ended, rest);
      OneLine(rest);
      assert "" + rest == rest;
      assert RawLines(ended) == front + [last] == lines;
    }
  }

  predicate EndsInReturn(line: string) { line != "" && line[|line| - 1] == '\r' }

  // A line put out is the one between the newlines, less one carriage return at its end.
  lemma LinesLoseOneReturn(text: string, i: nat)
    requires i < |RawLines(text)|
    ensures |Lines(text)| == |RawLines(text)|
    ensures RawLines(text)[i] == Lines(text)[i] + (if EndsInReturn(RawLines(text)[i]) then "\r" else "")
  {
    var raw := RawLines(text)[i];
    if EndsInReturn(raw) { assert raw == raw[..|raw| - 1] + "\r"; } else { assert raw + "" == raw; }
  }

  // A line and how it ends: in LF, or in CR and LF.
  datatype Ended = Ended(line: string, cr: bool)

  function Written(es: seq<Ended>): seq<string> {
    seq(|es|, i requires 0 <= i < |es| => es[i].line + (if es[i].cr then "\r" else ""))
  }

  /** Lines that hold no newline and do not end in a return come out as they are, whichever of
   *  the two endings each of them has. */
  lemma EndingsDoNotMatter(es: seq<Ended>, rest: string)
    requires NoNewline(rest)
    requires forall i :: 0 <= i < |es| ==> NoNewline(es[i].line) && !EndsInReturn(es[i].line)
    ensures var text := Joined(Written(es)) + rest;
      Rest(text) == rest && Lines(text) == seq(|es|, i requires 0 <= i < |es| => es[i].line)
  {
    LinesAreUnique(Written(es), rest);
    forall i | 0 <= i < |es| ensures Strip(Written(es)[i]) == es[i].line {
      if !es[i].cr { assert es[i].line + "" == es[i].line; }
    }
  }

  ghost predicate AllSpace(text: string) { forall i :: 0 <= i < |text| ==> IsSpace(text[i]) }

  lemma {:induction false} TrimEndTakesSpaces(line: string) returns (after: string)
    ensures line == TrimEnd(line) + after && AllSpace(after)
    ensures TrimEnd(line) == "" || !IsSpace(TrimEnd(line)[|TrimEnd(line)| - 1])
  {
    if line != "" && IsSpace(line[|line| - 1]) {
      var rest := TrimEndTakesSpaces(line[..|line| - 1]);
      after := rest + [line[|line| - 1]];
      assert line == line[..|line| - 1] + [line[|line| - 1]];
    } else {
      after := "";
    }
  }

  lemma {:induction false} TrimStartTakesSpaces(line: string) returns (before: string)
    ensures line == before + TrimStart(line) && AllSpace(before)
    ensures TrimStart(line) == "" || !IsSpace(TrimStart(line)[0])
  {
    if line != "" && IsSpace(line[0]) {
      var rest := TrimStartTakesSpaces(line[1..]);
      before := [line[0]] + rest;
      assert line == [line[0]] + line[1..];
    } else {
      before := "";
    }
  }

  // Trimming takes away the white space at both ends and nothing else.
  lemma TrimTakesExactlyTheSpaces(line: string) returns (before: string, after: string)
    ensures line == before + Trim(line) + after && AllSpace(before) && AllSpace(after)
    ensures Trim(line) != "" ==> !IsSpace(Trim(line)[0]) && !IsSpace(Trim(line)[|Trim(line)| - 1])
  {
    after := TrimEndTakesSpaces(line);
    before := TrimStartTakesSpaces(TrimEnd(line));
    var t := TrimEnd(line);
    assert t == before + Trim(line);
    if Trim(line) != "" { assert t[|t| - 1] == Trim(line)[|Trim(line)| - 1]; }
  }

  // Exactly the lines with something but white space are handed on, trimmed.
  lemma {:induction false} NonBlankKeepsExactlyThose(lines: seq<string>, x: string)
    ensures x in NonBlank(lines) <==> exists i :: 0 <= i < |lines| && Trim(lines[i]) == x && !AllSpace(lines[i])
  {
    if lines != [] {
      var front, last := lines[..|lines| - 1], lines[|lines| - 1];
      NonBlankKeepsExactlyThose(front, x);
      BlankExactlyWhenSpace(last);
      assert forall i :: 0 <= i < |front| ==> front[i] == lines[i];
    }
  }

  lemma BlankExactlyWhenSpace(line: string)
    ensures Trim(line) == "" <==> AllSpace(line)
  {
    var before, after := TrimTakesExactlyTheSpaces(line);
    if Trim(line) != "" { assert line[|before|] == Trim(line)[0]; }
  }

  lemma TrimOfStrip(line: string)
    ensures Trim(Strip(line)) == Trim(line)
  {
  }

  lemma {:induction false} NonBlankOfStripped(raw: seq<string>, stripped: seq<string>)
    requires |raw| == |stripped| && forall i :: 0 <= i < |raw| ==> stripped[i] == Strip(raw[i])
    ensures NonBlank(stripped) == NonBlank(raw)
  {
    if raw != [] {
      NonBlankOfStripped(raw[..|raw| - 1], stripped[..|raw| - 1]);
      TrimOfStrip(raw[|raw| - 1]);
    }
  }

  lemma {:induction false} NonBlankOfConcat(a: seq<string>, b: seq<string>)
    ensures NonBlank(a + b) == NonBlank(a) + NonBlank(b)
  {
    if b == [] {
      assert a + b == a;
    } else {
      assert (a + b)[..|a + b| - 1] == a + b[..|b| - 1];
      NonBlankOfConcat(a, b[..|b| - 1]);
    }
  }

  function ClaudeFeed(chunks: seq<string>): Reader {
    if chunks == [] then Reader([], "")
    else
      var r := ClaudeFeed(chunks[..|chunks| - 1]);
      var buf := r.rest + chunks[|chunks| - 1];
      Reader(r.lines + NonBlank(RawLines(buf)), Rest(buf))
  }

  /** The other runtime, which splits, keeps the last piece and trims, puts out the same
   *  non-blank trimmed lines, again however the text is cut. */
  lemma {:induction false} BothReadersAgree(chunks: seq<string>)
    ensures ClaudeFeed(chunks) == Reader(NonBlank(Lines(Glue(chunks))), Rest(Glue(chunks)))
    ensures ClaudeFeed(chunks) == Reader(NonBlank(Feed(chunks).lines), Feed(chunks).rest)
  {
    ChunksDoNotMatter(chunks);
    if chunks != [] {
      var front, last := chunks[..|chunks| - 1], chunks[|chunks| - 1];
      BothReadersAgree(front);
      ChunksDoNotMatter(front);
      var buf := Rest(Glue(front)) + last;
      NonBlankOfStripped(RawLines(buf), Lines(buf));
      NonBlankOfConcat(Lines(Glue(front)), Lines(buf));
      StrippedConcat(Glue(front), last);
    }
  }

  // ----------------------------------------------------------------- the readers

  // The position of the next newline, or -1.
  method IndexOfNewline(text: string, start: nat) returns (nl: int)
    requires start <= |text|
    ensures nl == -1 || start <= nl < |text|
    ensures nl == -1 ==> NoNewline(text[start..])
    ensures nl != -1 ==> text[nl] == '\n' && NoNewline(text[start..nl])
  {
    nl := start;
    while nl < |text|
      invariant start <= nl <= |text| && NoNewline(text[start..nl])
    {
      if text[nl] == '\n' { return; }
      assert text[start..nl + 1] == text[start..nl] + [text[nl]];
      nl := nl + 1;
    }
    assert text[start..nl] == text[start..];
    nl := -1;
  }

  // A stretch without newline after a newline is the rest.
  lemma Stretch(text: string, i: nat, j: nat)
    requires i <= j <= |text| && Rest(text[..i]) == "" && NoNewline(text[i..j])
    ensures RawLines(text[..j]) == RawLines(text[..i]) && Rest(text[..j]) == text[i..j]
  {
    assert text[..j] == text[..i] + text[i..j];
    LinesOfConcat(text[..i], text[i..j]);
    OneLine(text[i..j]);
    assert "" + text[i..j] == text[i..j];
  }

  lemma NextLine(text: string, i: nat, nl: nat)
    requires i <= nl < |text| && Rest(text[..i]) == "" && NoNewline(text[i..nl]) && text[nl] == '\n'
    ensures Lines(text[..nl + 1]) == Lines(text[..i]) + [Strip(text[i..nl])] && Rest(text[..nl + 1]) == ""
  {
    Stretch(text, i, nl);
    assert text[..nl + 1][..nl] == text[..nl];
    assert RawLines(text[..nl + 1]) == RawLines(text[..i]) + [text[i..nl]];
  }

  method ConsumeLines(buf: string) returns (lines: seq<string>, rest: string)
    ensures lines == Lines(buf) && rest == Rest(buf)
  {
    lines := [];
    var i := 0;
    while true
      invariant 0 <= i <= |buf| && Rest(buf[..i]) == "" && lines == Lines(buf[..i])
      decreases |buf| - i
    {
      var nl := IndexOfNewline(buf, i);
      if nl == -1 { break; }
      NextLine(buf, i, nl);
      var end := nl;
      if end > i && buf[end - 1] == '\r' { end := end - 1; }
      assert buf[i..end] == Strip(buf[i..nl]);
      lines := lines + [buf[i..end]];
      i := nl + 1;
    }
    Stretch(buf, i, |buf|);
    assert buf[..|buf|] == buf;
    rest := buf[i..];
  }

  /** A session that reads one event a line; `events` are the lines handed to the parser. */
  class OpenClawReader {
    var buf: string
    var events: seq<string>
    ghost var fed: seq<string>

    ghost predicate Valid()
      reads this
    {
      Reader(events, buf) == Feed(fed)
    }

    constructor ()
      ensures Valid() && fed == [] && events == []
    {
      buf, events, fed := "", [], [];
    }

    // What was read so far is what one pass over all the text would have read.
    method OnData(chunk: string)
      requires Valid()
      modifies this
      ensures Valid() && fed == old(fed) + [chunk]
      ensures events == Lines(Glue(old(fed)) + chunk)
    {
      assert (fed + [chunk])[..|fed|] == fed;
      ChunksDoNotMatter(fed + [chunk]);
      var lines, rest := ConsumeLines(buf + chunk);
      events, buf, fed := events + lines, rest, fed + [chunk];
    }

    // At the end a last line without newline is an event too, unless it is blank.
    method OnClose()
      requires Valid()
      modifies this
      ensures events == Lines(Glue(fed)) + (if Trim(Rest(Glue(fed))) == "" then [] else [Rest(Glue(fed))])
      ensures fed == old(fed)
    {
      ChunksDoNotMatter(fed);
      if Trim(buf) != "" {
        events, buf := events + [buf], "";
      } else {
        assert events + [] == events;
      }
    }
  }

  class ClaudeReader {
    var stdoutBuffer: string
    var events: seq<string>
    ghost var fed: seq<string>

    ghost predicate Valid()
      reads this
    {
      Reader(events, stdoutBuffer) == ClaudeFeed(fed)
    }

    constructor ()
      ensures Valid() && fed == [] && events == []
    {
      stdoutBuffer, events, fed := "", [], [];
    }

    method HandOver(lines: seq<string>)
      modifies this`events
      ensures events == old(events) + NonBlank(lines)
    {
      for k := 0 to |lines|
        invariant events == old(events) + NonBlank(lines[..k])
      {
        assert lines[..k + 1][..k] == lines[..k];
        if Trim(lines[k]) != "" { events := events + [Trim(lines[k])]; }
      }
      assert lines[..|lines|] == lines;
    }

    // Splits at the newlines and keeps the last piece.
    method OnData(chunk: string)
      requires Valid()
      modifies this
      ensures Valid() && fed == old(fed) + [chunk]
      ensures events == NonBlank(Lines(Glue(old(fed)) + chunk))
    {
      assert (fed + [chunk])[..|fed|] == fed;
      BothReadersAgree(fed + [chunk]);
      var text := stdoutBuffer + chunk;
      var pieces := RawLines(text) + [Rest(text)];
      stdoutBuffer := pieces[|pieces| - 1];
      HandOver(pieces[..|pieces| - 1]);
      fed := fed + [chunk];
    }
  }
}
