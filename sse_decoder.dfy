/** The line decoder that the chat client runs over each chunk of the reply
    stream: split the chunk on '\n', keep the lines that start with `data: `,
    parse the rest as JSON, and dispatch on the record's `event`.

    Each chunk is decoded on its own: no partial line is carried from one
    chunk to the next. JSON parsing is a parameter `parse`; a payload it
    cannot turn into a record (a syntax error, or a `null` whose `.event`
    would throw) is `None`. */
module SseDecoder {
  import opened Js

  /** The fields of a parsed stream record that the client reads. */
  datatype Record = Record(event: string, answer: string, conversationId: Option<string>)

  type Parser = string -> Option<Record>

  const DataPrefix: string := "data: "

  /** `data.conversation_id` is truthy. */
  predicate HasId(id: Option<string>) {
    id.Some? && id.value != ""
  }

  // ---------------------------------------------------------------------------
  // Splitting a chunk into lines

  /** The inverse of `chunk.split('\n')`: the pieces joined with '\n'. */
  function JoinLines(lines: seq<string>): string
    requires |lines| > 0
  {
    if |lines| == 1 then lines[0] else lines[0] + "\n" + JoinLines(lines[1..])
  }

  /** `chunk.split('\n')`: always at least one piece (the empty chunk gives
      `[""]`), no piece holds a newline, and joining the pieces restores the chunk. */
  function SplitLines(s: string): (lines: seq<string>)
    ensures |lines| > 0
    ensures forall i :: 0 <= i < |lines| ==> '\n' !in lines[i]
    ensures JoinLines(lines) == s
  {
    if s == [] then [""]
    else
      var rest := SplitLines(s[1..]);
      if s[0] == '\n' then
        assert s == "\n" + s[1..];
        [""] + rest
      else
        var lines := [[s[0]] + rest[0]] + rest[1..];
        assert lines[1..] == rest[1..];
        assert |rest| > 1 ==> rest == [rest[0]] + rest[1..];
        assert s == [s[0]] + s[1..];
        lines
  }

  /** Splitting is also a left inverse of joining, for pieces without newlines. */
  lemma {:induction false} SplitJoin(lines: seq<string>)
    requires |lines| > 0
    requires forall i :: 0 <= i < |lines| ==> '\n' !in lines[i]
    ensures SplitLines(JoinLines(lines)) == lines
  {
    if |lines| == 1 {
      SplitNoNewline(lines[0]);
    } else {
      SplitJoin(lines[1..]);
      SplitAfterLine(lines[0], JoinLines(lines[1..]));
    }
  }

  lemma {:induction false} SplitNoNewline(s: string)
    requires '\n' !in s
    ensures SplitLines(s) == [s]
  {
    if s != [] {
      SplitNoNewline(s[1..]);
    }
  }

  lemma {:induction false} SplitAfterLine(line: string, rest: string)
    requires '\n' !in line
    ensures SplitLines(line + "\n" + rest) == [line] + SplitLines(rest)
  {
    if line == [] {
      assert line + "\n" + rest == "\n" + rest;
      assert ("\n" + rest)[1..] == rest;
    } else {
      SplitAfterLine(line[1..], rest);
      assert (line + "\n" + rest)[1..] == line[1..] + "\n" + rest;
      assert [line[0]] + line[1..] == line;
    }
  }

  // ---------------------------------------------------------------------------
  // Decoding lines and chunks

  /** `line.startsWith('data: ') ? line.slice(6) : (skipped)`. */
  function DataPayload(line: string): (p: Option<string>)
    ensures p.Some? <==> |line| >= |DataPrefix| && line[..|DataPrefix|] == DataPrefix
    ensures p.Some? ==> p.value == line[|DataPrefix|..]
  {
    if |line| >= |DataPrefix| && line[..|DataPrefix|] == DataPrefix then Some(line[|DataPrefix|..]) else None
  }

  /** A line carries a payload exactly when it is `data: ` followed by that payload. */
  lemma DataPayloadIff(line: string, p: string)
    ensures DataPayload(line) == Some(p) <==> line == DataPrefix + p
  {
    if line == DataPrefix + p {
      assert line[..|DataPrefix|] == DataPrefix;
      assert line[|DataPrefix|..] == p;
    }
    if DataPayload(line) == Some(p) {
      assert line == line[..|DataPrefix|] + line[|DataPrefix|..];
    }
  }

  /** The records one line contributes: none, or the one its payload parses to. */
  function DecodeLine(parse: Parser, line: string): (recs: seq<Record>)
    ensures |recs| <= 1
    ensures |recs| == 1 <==> DataPayload(line).Some? && parse(DataPayload(line).value).Some?
    ensures |recs| == 1 ==> recs[0] == parse(DataPayload(line).value).value
  {
    match DataPayload(line)
    case None => []
    case Some(p) =>
      match parse(p)
      case None => []
      case Some(r) => [r]
  }

  /** The records decoded from a sequence of lines, in order. */
  function DecodeLines(parse: Parser, lines: seq<string>): (recs: seq<Record>)
    ensures |recs| <= |lines|
  {
    if lines == [] then []
    else DecodeLines(parse, lines[..|lines| - 1]) + DecodeLine(parse, lines[|lines| - 1])
  }

  /** The records decoded from one chunk read off the stream. */
  function DecodeChunk(parse: Parser, chunk: string): seq<Record> {
    DecodeLines(parse, SplitLines(chunk))
  }

  /** What `f` yields for each chunk, concatenated in chunk order. */
  function ConcatMap(f: string -> seq<Record>, chunks: seq<string>): seq<Record> {
    if chunks == [] then []
    else ConcatMap(f, chunks[..|chunks| - 1]) + f(chunks[|chunks| - 1])
  }

  lemma {:induction false} ConcatMapAppend(f: string -> seq<Record>, a: seq<string>, b: seq<string>)
    ensures ConcatMap(f, a + b) == ConcatMap(f, a) + ConcatMap(f, b)
  {
    if b == [] {
      assert a + b == a;
    } else {
      var init, last := b[..|b| - 1], b[|b| - 1];
      ConcatMapAppend(f, a, init);
      assert (a + b)[..|a + b| - 1] == a + init;
      assert (a + b)[|a + b| - 1] == last;
    }
  }

  /** The records decoded from the chunks read so far, each chunk on its own. */
  function DecodeChunks(parse: Parser, chunks: seq<string>): (recs: seq<Record>)
    ensures chunks == [] ==> recs == []
    ensures |chunks| == 1 ==> recs == DecodeChunk(parse, chunks[0])
  {
    var f := c => DecodeChunk(parse, c);
    assert |chunks| == 1 ==> chunks[..0] == [] && ConcatMap(f, chunks) == ConcatMap(f, chunks[..0]) + f(chunks[0]);
    ConcatMap(f, chunks)
  }

  lemma {:induction false} DecodeLinesAppend(parse: Parser, a: seq<string>, b: seq<string>)
    ensures DecodeLines(parse, a + b) == DecodeLines(parse, a) + DecodeLines(parse, b)
  {
    if b == [] {
      assert a + b == a;
    } else {
      DecodeLinesAppend(parse, a, b[..|b| - 1]);
      assert (a + b)[..|a + b| - 1] == a + b[..|b| - 1];
    }
  }

  /** A line that does not decode (no `data: ` prefix, or a payload that does
      not parse) is skipped, and decoding goes on with the next line. */
  lemma SkippedLine(parse: Parser, before: seq<string>, bad: string, after: seq<string>)
    requires DataPayload(bad).None? || parse(DataPayload(bad).value).None?
    ensures DecodeLines(parse, before + [bad] + after) == DecodeLines(parse, before) + DecodeLines(parse, after)
  {
    DecodeLinesAppend(parse, before + [bad], after);
    assert DecodeLines(parse, before + [bad]) == DecodeLines(parse, before);
  }

  /** One more chunk adds its own records at the end. */
  lemma DecodeChunksSnoc(parse: Parser, init: seq<string>, last: string)
    ensures DecodeChunks(parse, init + [last]) == DecodeChunks(parse, init) + DecodeChunk(parse, last)
  {
    assert (init + [last])[..|init|] == init;
  }

  /** Decoding a stream is decoding its chunks one after the other. */
  lemma DecodeChunksAppend(parse: Parser, a: seq<string>, b: seq<string>)
    ensures DecodeChunks(parse, a + b) == DecodeChunks(parse, a) + DecodeChunks(parse, b)
  {
    ConcatMapAppend(c => DecodeChunk(parse, c), a, b);
  }

  /** A stream of one chunk decodes as that chunk. */
  lemma DecodeOneChunk(parse: Parser, c: string)
    ensures DecodeChunks(parse, [c]) == DecodeChunk(parse, c)
  {
    DecodeChunksSnoc(parse, [], c);
    assert [] + [c] == [c];
  }

  /** A chunk without a newline is a single line. */
  lemma SingleLineChunk(parse: Parser, c: string)
    requires '\n' !in c
    ensures DecodeChunks(parse, [c]) == DecodeLine(parse, c)
  {
    SplitNoNewline(c);
    DecodeOneChunk(parse, c);
    assert [c][..0] == [];
    assert DecodeLines(parse, [c]) == DecodeLine(parse, c);
  }

  /** Two chunks without newlines decode as two lines, in order. */
  lemma TwoLineChunks(parse: Parser, c1: string, c2: string)
    requires '\n' !in c1 && '\n' !in c2
    ensures DecodeChunks(parse, [c1, c2]) == DecodeLine(parse, c1) + DecodeLine(parse, c2)
  {
    SingleLineChunk(parse, c1);
    SingleLineChunk(parse, c2);
    DecodeOneChunk(parse, c2);
    DecodeChunksSnoc(parse, [c1], c2);
    assert [c1] + [c2] == [c1, c2];
  }

  /** A record split across two chunks is lost: whether the cut falls inside
      the `data: ` prefix, or inside the payload where neither half decodes on
      its own, the two chunks yield no record at all, while the same line
      in one chunk yields the record its payload parses to. */
  lemma SplitRecordDropped(parse: Parser, p: string, k: nat)
    requires '\n' !in p
    requires 0 < k < |DataPrefix| + |p|
    requires k >= |DataPrefix| ==>
      parse(p[..k - |DataPrefix|]).None? && DataPayload(p[k - |DataPrefix|..]).None?
    ensures DecodeChunks(parse, [(DataPrefix + p)[..k], (DataPrefix + p)[k..]]) == []
    ensures DecodeChunks(parse, [DataPrefix + p]) ==
      (if parse(p).Some? then [parse(p).value] else [])
  {
    var line := DataPrefix + p;
    var c1, c2 := line[..k], line[k..];
    assert '\n' !in c1 && '\n' !in c2 by {
      assert forall i :: 0 <= i < |c1| ==> c1[i] == line[i];
      assert forall i :: 0 <= i < |c2| ==> c2[i] == line[k + i];
      assert forall i :: 0 <= i < |line| ==> line[i] != '\n';
    }
    TwoLineChunks(parse, c1, c2);
    SingleLineChunk(parse, line);
    DataPayloadIff(line, p);
    if k < |DataPrefix| {
      assert DataPayload(c1).None?;
      assert c2[0] == DataPrefix[k] != 'd';
      assert DataPayload(c2).None?;
    } else {
      var j := k - |DataPrefix|;
      assert c1 == DataPrefix + p[..j];
      DataPayloadIff(c1, p[..j]);
      assert c2 == p[j..];
    }
  }

  // ---------------------------------------------------------------------------
  // What the client accumulates from the decoded records

  /** The assistant text: the `answer` deltas of the `message` records, in order;
      `message_end` and any other event add nothing. */
  function Answer(recs: seq<Record>): (text: string)
    ensures |recs| == 1 ==> text == (if recs[0].event == "message" then recs[0].answer else "")
  {
    if recs == [] then ""
    else
      var last := recs[|recs| - 1];
      Answer(recs[..|recs| - 1]) + (if last.event == "message" then last.answer else "")
  }

  /** One more record adds its delta when it is a `message`, nothing otherwise. */
  lemma AnswerSnoc(init: seq<Record>, r: Record)
    ensures Answer(init + [r]) == Answer(init) + (if r.event == "message" then r.answer else "")
  {
    assert (init + [r])[..|init|] == init;
  }

  /** The assistant text over a stream is the text of each part, concatenated. */
  lemma {:induction false} AnswerAppend(a: seq<Record>, b: seq<Record>)
    ensures Answer(a + b) == Answer(a) + Answer(b)
  {
    if b == [] {
      assert a + b == a;
    } else {
      var init, last := b[..|b| - 1], b[|b| - 1];
      ghost var delta := if last.event == "message" then last.answer else "";
      assert Answer(b) == Answer(init) + delta by {
        assert b == init + [last];
        AnswerSnoc(init, last);
      }
      assert Answer(a + b) == Answer(a + init) + delta by {
        assert a + b == (a + init) + [last];
        AnswerSnoc(a + init, last);
      }
      AnswerAppend(a, init);
    }
  }

  /** The deltas of all records, whatever their event: an independent
      definition, read front to back. */
  function Deltas(recs: seq<Record>): string {
    if recs == [] then "" else recs[0].answer + Deltas(recs[1..])
  }

  /** For a stream of `message` records with deltas d1..dN the text is d1 + ... + dN. */
  lemma {:induction false} AnswerOfMessages(recs: seq<Record>)
    requires forall i :: 0 <= i < |recs| ==> recs[i].event == "message"
    ensures Answer(recs) == Deltas(recs)
  {
    if recs != [] {
      AnswerOfMessages(recs[1..]);
      AnswerAppend([recs[0]], recs[1..]);
      assert [recs[0]] + recs[1..] == recs;
      assert Answer([recs[0]]) == recs[0].answer by {
        assert [recs[0]][..0] == [];
      }
    }
  }

  /** Records other than `message` leave the text as it was. */
  lemma {:induction false} AnswerIgnoresOthers(recs: seq<Record>)
    requires forall i :: 0 <= i < |recs| ==> recs[i].event != "message"
    ensures Answer(recs) == ""
  {
    if recs != [] {
      AnswerIgnoresOthers(recs[..|recs| - 1]);
    }
  }

  /** One record's effect on the session's conversation id: taken from a
      `message` record that carries a truthy id, and only while the session's
      id is still unset. */
  function CaptureStep(id: Option<string>, r: Record): (next: Option<string>)
    ensures HasId(id) ==> next == id
    ensures !HasId(id) && r.event == "message" && HasId(r.conversationId) ==> next == r.conversationId
    ensures r.event != "message" || !HasId(r.conversationId) ==> next == id
  {
    if r.event == "message" && HasId(r.conversationId) && !HasId(id) then r.conversationId else id
  }

  /** The session's conversation id after the records, starting from `id0`. */
  function Captured(id0: Option<string>, recs: seq<Record>): (id: Option<string>)
    ensures id == id0 || exists i :: 0 <= i < |recs| && recs[i].event == "message" && id == recs[i].conversationId
  {
    if recs == [] then id0 else CaptureStep(Captured(id0, recs[..|recs| - 1]), recs[|recs| - 1])
  }

  /** First write wins: once the id is set, no later record changes it. */
  lemma {:induction false} CapturedKeepsSetId(id0: Option<string>, recs: seq<Record>)
    requires HasId(id0)
    ensures Captured(id0, recs) == id0
  {
    if recs != [] {
      CapturedKeepsSetId(id0, recs[..|recs| - 1]);
    }
  }

  /** The truthy id of the first `message` record that has one: an independent
      definition, read front to back. */
  function FirstId(recs: seq<Record>): Option<string> {
    if recs == [] then None
    else if recs[0].event == "message" && HasId(recs[0].conversationId) then recs[0].conversationId
    else FirstId(recs[1..])
  }

  lemma {:induction false} FirstIdAppend(a: seq<Record>, b: seq<Record>)
    ensures FirstId(a + b) == if FirstId(a).Some? then FirstId(a) else FirstId(b)
  {
    if a != [] {
      FirstIdAppend(a[1..], b);
      assert (a + b)[1..] == a[1..] + b;
    } else {
      assert a + b == b;
    }
  }

  lemma {:induction false} FirstIdIsSet(recs: seq<Record>)
    ensures FirstId(recs).Some? ==> HasId(FirstId(recs))
  {
    if recs != [] {
      FirstIdIsSet(recs[1..]);
    }
  }

  /** Starting unset, the session ends with the id of the first `message` record
      that carries one, and stays unset when none does. */
  lemma {:induction false} CapturedIsFirstId(id0: Option<string>, recs: seq<Record>)
    requires !HasId(id0)
    ensures Captured(id0, recs) == if FirstId(recs).Some? then FirstId(recs) else id0
  {
    if recs != [] {
      var init, last := recs[..|recs| - 1], recs[|recs| - 1];
      CapturedIsFirstId(id0, init);
      FirstIdAppend(init, [last]);
      assert init + [last] == recs;
      FirstIdIsSet(init);
      assert [last][1..] == [];
    }
  }

  lemma NoNewlineInDataLine(p: string)
    requires '\n' !in p
    ensures '\n' !in DataPrefix + p
  {
    var l := DataPrefix + p;
    assert forall i :: 0 <= i < |l| ==> l[i] == if i < |DataPrefix| then DataPrefix[i] else p[i - |DataPrefix|];
  }

  /** Two records, each followed by a blank line, split into five lines. */
  lemma TwoRecordLines(l1: string, l2: string)
    requires '\n' !in l1 && '\n' !in l2
    ensures SplitLines(l1 + "\n\n" + l2 + "\n\n") == [l1, "", l2, "", ""]
  {
    SplitNoNewline("");
    SplitAfterLine("", "");
    assert "" + "\n" + "" == "\n";
    SplitAfterLine("", "\n");
    assert "" + "\n" + "\n" == "\n\n";
    SplitAfterLine(l2, "\n");
    assert l2 + "\n" + "\n" == l2 + "\n\n";
    SplitAfterLine("", l2 + "\n\n");
    assert "" + "\n" + (l2 + "\n\n") == "\n" + l2 + "\n\n";
    SplitAfterLine(l1, "\n" + l2 + "\n\n");
    assert l1 + "\n" + ("\n" + l2 + "\n\n") == l1 + "\n\n" + l2 + "\n\n";
  }

  lemma DecodeTwoRecordLines(parse: Parser, l1: string, l2: string, r1: Record, r2: Record)
    requires DecodeLine(parse, l1) == [r1] && DecodeLine(parse, l2) == [r2]
    ensures DecodeLines(parse, [l1, "", l2, "", ""]) == [r1, r2]
  {
    var lines := [l1, "", l2, "", ""];
    assert DecodeLine(parse, "") == [];
    assert DecodeLines(parse, lines[..1]) == [r1] by {
      assert lines[..1][..0] == [];
    }
    assert DecodeLines(parse, lines[..2]) == [r1] by {
      assert lines[..2][..1] == lines[..1];
    }
    assert DecodeLines(parse, lines[..3]) == [r1, r2] by {
      assert lines[..3][..2] == lines[..2];
    }
    assert DecodeLines(parse, lines[..4]) == [r1, r2] by {
      assert lines[..4][..3] == lines[..3];
    }
    assert lines[..5][..4] == lines[..4];
    assert lines[..5] == lines;
  }

  /** A whole reply in one chunk: a `message` record with delta "Hi" and id
      "c1", then a `message_end` record, each followed by a blank line. The
      text is "Hi" and an unset session takes the id "c1". */
  lemma OneChunkReply(parse: Parser, p1: string, p2: string)
    requires '\n' !in p1 && '\n' !in p2
    requires parse(p1) == Some(Record("message", "Hi", Some("c1")))
    requires parse(p2) == Some(Record("message_end", "", None))
    ensures var chunk := DataPrefix + p1 + "\n\n" + DataPrefix + p2 + "\n\n";
            Answer(DecodeChunks(parse, [chunk])) == "Hi" &&
            Captured(None, DecodeChunks(parse, [chunk])) == Some("c1")
  {
    var l1, l2 := DataPrefix + p1, DataPrefix + p2;
    var chunk := l1 + "\n\n" + l2 + "\n\n";
    assert chunk == DataPrefix + p1 + "\n\n" + DataPrefix + p2 + "\n\n";
    NoNewlineInDataLine(p1);
    NoNewlineInDataLine(p2);
    TwoRecordLines(l1, l2);
    DataPayloadIff(l1, p1);
    DataPayloadIff(l2, p2);
    var r1, r2 := parse(p1).value, parse(p2).value;
    DecodeTwoRecordLines(parse, l1, l2, r1, r2);
    var recs := [r1, r2];
    assert DecodeChunks(parse, [chunk]) == recs by {
      DecodeOneChunk(parse, chunk);
    }
    assert recs[..1] == [r1];
    assert [r1][..0] == [];
    assert Answer([r1]) == "Hi";
    assert Answer(recs) == "Hi";
    assert Captured(None, [r1]) == Some("c1");
    assert Captured(None, recs) == Some("c1");
  }
}
