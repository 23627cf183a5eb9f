/** The browser chat client: the session state (`appState`), what a send does
    to it as the reply stream is decoded, the sidebar history list, and the
    small input guards. Rendering is not modelled; only state effects are. */
module ChatClient {
  import opened Js
  import opened SseDecoder

  datatype Role = User | Assistant

  /** One transcript entry, `{ role, content }`. */
  datatype Turn = Turn(role: Role, content: string)

  /** One sidebar history entry: the conversation it opens and its title. */
  datatype HistoryItem = HistoryItem(conversationId: string, title: string)

  /** What `fetch('/api/chat')` produced. `NoStream` is a rejected fetch or a
      response whose `ok` is false; `Stream` is the sequence of decoded text
      chunks the reader delivered, and whether a `read()` then failed instead
      of reporting the end of the stream. */
  datatype Reply = NoStream | Stream(chunks: seq<string>, readFails: bool)

  // ---------------------------------------------------------------------------
  // Pure pieces of the client

  const TitleLimit: nat := 30

  /** The sidebar title of a new conversation: the message itself when it has
      at most 30 characters, otherwise its first 30 characters and `...`. */
  function Title(message: string): (t: string)
    ensures |message| <= TitleLimit ==> t == message
    ensures |message| > TitleLimit ==> |t| == TitleLimit + 3 && t[..TitleLimit] == message[..TitleLimit] && t[TitleLimit..] == "..."
  {
    if |message| > TitleLimit then message[..TitleLimit] + "..." else message
  }

  /** A title is never longer than 33 characters and always begins like the message. */
  lemma TitleShape(message: string)
    ensures |Title(message)| <= TitleLimit + 3
    ensures var n := if |message| < TitleLimit then |message| else TitleLimit;
            Title(message)[..n] == message[..n]
  {
  }

  /** The text a feature button puts in the input box; unknown labels give "". */
  function FeaturePrompt(feature: string): (prompt: string)
    ensures prompt != "" <==> feature in {"Write", "Learn", "Code", "Life stuff"}
  {
    match feature
    case "Write" => "帮我写一篇"
    case "Learn" => "教我学习"
    case "Code" => "帮我编写代码"
    case "Life stuff" => "给我一些生活建议"
    case _ => ""
  }

  /** The characters `String.prototype.trim` removes: white space and line terminators. */
  predicate IsTrimmed(c: char) {
    c in {'\t', '\n', '\U{000B}', '\U{000C}', '\r', ' ', '\U{00A0}', '\U{1680}',
          '\U{2028}', '\U{2029}', '\U{202F}', '\U{205F}', '\U{3000}', '\U{FEFF}'}
    || ('\U{2000}' <= c <= '\U{200A}')
  }

  predicate AllTrimmed(s: string) {
    forall i :: 0 <= i < |s| ==> IsTrimmed(s[i])
  }

  /** Drops leading white space: what remains is a suffix of `s` that does not
      start with white space, and everything dropped was white space. */
  function TrimStart(s: string): (r: string)
    ensures |r| <= |s| && r == s[|s| - |r|..]
    ensures AllTrimmed(s[..|s| - |r|])
    ensures r != [] ==> !IsTrimmed(r[0])
  {
    if s != [] && IsTrimmed(s[0]) then
      var r := TrimStart(s[1..]);
      assert s[..|s| - |r|] == [s[0]] + s[1..][..|s[1..]| - |r|];
      r
    else s
  }

  /** Drops trailing white space, symmetrically. */
  function TrimEnd(s: string): (r: string)
    ensures |r| <= |s| && r == s[..|r|]
    ensures AllTrimmed(s[|r|..])
    ensures r != [] ==> !IsTrimmed(r[|r| - 1])
  {
    if s != [] && IsTrimmed(s[|s| - 1]) then
      var r := TrimEnd(s[..|s| - 1]);
      assert s[|r|..] == s[..|s| - 1][|r|..] + [s[|s| - 1]];
      r
    else s
  }

  /** `String.prototype.trim`: a contiguous piece of `s` with only white space
      around it, which neither starts nor ends with white space; it is empty
      exactly when `s` is all white space. */
  function Trim(s: string): (t: string)
    ensures t == [] <==> AllTrimmed(s)
    ensures t != [] ==> !IsTrimmed(t[0]) && !IsTrimmed(t[|t| - 1])
  {
    var u := TrimStart(s);
    var t := TrimEnd(u);
    if t == [] then
      assert AllTrimmed(u) by {
        assert u[0..] == u;
      }
      assert s == s[..|s| - |u|] + u;
      t
    else
      assert t[0] == u[0];
      assert !AllTrimmed(s) by {
        assert s[|s| - |u|] == u[0];
      }
      t
  }

  /** `t` is a contiguous piece of `s` with only white space before and after it. */
  predicate InnerPiece(s: string, t: string) {
    exists i :: 0 <= i <= |s| - |t| && t == s[i..i + |t|] && AllTrimmed(s[..i]) && AllTrimmed(s[i + |t|..])
  }

  /** A suffix of `s` with only white space before it, cut down to a prefix
      with only white space after it, is a piece of `s` between white space. */
  lemma PieceBetweenWhiteSpace(s: string, u: string, t: string)
    requires |u| <= |s| && u == s[|s| - |u|..] && AllTrimmed(s[..|s| - |u|])
    requires |t| <= |u| && t == u[..|t|] && AllTrimmed(u[|t|..])
    ensures InnerPiece(s, t)
  {
    var i := |s| - |u|;
    assert t == s[i..i + |t|];
    assert s[i + |t|..] == u[|t|..];
  }

  /** What `trim` keeps is one contiguous piece of the input, with only white
      space before and after it. */
  lemma TrimIsInnerPiece(s: string)
    ensures InnerPiece(s, Trim(s))
  {
    var u := TrimStart(s);
    var t := TrimEnd(u);
    PieceBetweenWhiteSpace(s, u, t);
    assert t == Trim(s);
  }

  /** The submit guard: the trimmed input is sent unless it is empty, which
      happens exactly when the input is all white space. */
  function SubmitGuard(input: string): (message: Option<string>)
    ensures message.None? <==> AllTrimmed(input)
    ensures message.Some? ==>
              message.value == Trim(input) && message.value != [] &&
              !IsTrimmed(message.value[0]) && !IsTrimmed(message.value[|message.value| - 1])
  {
    var t := Trim(input);
    if t == [] then None else Some(t)
  }

  /** What choosing a file does: nothing without a file, an alert for a type
      that is not `image/...`, otherwise an upload. */
  datatype FileAction = Ignore | RejectNonImage | Upload

  const ImagePrefix: string := "image/"

  function OnFileChosen(mimeType: Option<string>): (action: FileAction)
    ensures action == Upload <==> mimeType.Some? && |mimeType.value| >= |ImagePrefix|
                                  && mimeType.value[..|ImagePrefix|] == ImagePrefix
    ensures action == Ignore <==> mimeType.None?
  {
    match mimeType
    case None => Ignore
    case Some(t) =>
      if |t| >= |ImagePrefix| && t[..|ImagePrefix|] == ImagePrefix then Upload else RejectNonImage
  }

  const DefaultImageMessage: string := "请分析这张图片"

  /** The message sent with an uploaded image: the raw input (not trimmed)
      when it is non-empty, otherwise a fixed request to analyse the image. */
  function ImageMessage(input: string): (message: string)
    ensures message != ""
    ensures input != "" ==> message == input
    ensures input == "" ==> message == DefaultImageMessage
  {
    if input != "" then input else DefaultImageMessage
  }

  /** The first sidebar entry for a conversation, as `querySelector` finds it. */
  function IndexOf(history: seq<HistoryItem>, id: string): (k: Option<nat>)
    ensures k.Some? ==>
              k.value < |history| && history[k.value].conversationId == id &&
              forall j :: 0 <= j < k.value ==> history[j].conversationId != id
    ensures k.None? ==> forall j :: 0 <= j < |history| ==> history[j].conversationId != id
  {
    if history == [] then None
    else if history[0].conversationId == id then Some(0)
    else
      match IndexOf(history[1..], id)
      case None => None
      case Some(k) => Some(k + 1)
  }

  function IdJson(id: Option<string>): Json {
    match id
    case None => Null
    case Some(s) => Str(s)
  }

  /** The single attachment a send carries for an uploaded image. */
  function ImageAttachment(url: Json): Json {
    Obj(map["type" := Str("image"), "transfer_method" := Str("remote_url"), "url" := url])
  }

  // ---------------------------------------------------------------------------
  // Steps of the decode loop

  lemma DecodeNextLine(parse: Parser, done: seq<Record>, lines: seq<string>, j: nat)
    requires j < |lines|
    ensures done + DecodeLines(parse, lines[..j + 1]) == done + DecodeLines(parse, lines[..j]) + DecodeLine(parse, lines[j])
  {
    assert lines[..j + 1][..j] == lines[..j];
  }

  /** One decoded record extends the captured id by one step. */
  lemma CaptureNext(id0: Option<string>, before: seq<Record>, r: Record)
    ensures Captured(id0, before + [r]) == CaptureStep(Captured(id0, before), r)
  {
    assert (before + [r])[..|before|] == before;
  }

  lemma AppendExchangeValid(messages: seq<Turn>, message: string, answer: string)
    requires |messages| % 2 == 0
    requires forall i :: 0 <= i < |messages| ==> messages[i].role == (if i % 2 == 0 then User else Assistant)
    ensures var m := messages + [Turn(User, message), Turn(Assistant, answer)];
      |m| % 2 == 0 && forall i :: 0 <= i < |m| ==> m[i].role == (if i % 2 == 0 then User else Assistant)
  {
  }

  // ---------------------------------------------------------------------------
  // The session

  /** `appState` together with the sidebar's history list. */
  class Session {
    var conversationId: Option<string>
    var messages: seq<Turn>
    const currentUser: string
    var history: seq<HistoryItem>

    /** The transcript alternates user and assistant turns, starting with the
        user, and every sidebar entry names a conversation. */
    ghost predicate Valid()
      reads this
    {
      |messages| % 2 == 0 &&
      (forall i :: 0 <= i < |messages| ==> messages[i].role == (if i % 2 == 0 then User else Assistant)) &&
      (forall i :: 0 <= i < |history| ==> history[i].conversationId != "")
    }

    /** A fresh page: no conversation, an empty transcript, and a user id
        derived from the clock reading `now`. */
    constructor (now: nat)
      ensures Valid()
      ensures conversationId == None && messages == [] && history == []
      ensures currentUser == "user-" + Decimal(now)
    {
      conversationId := None;
      messages := [];
      currentUser := "user-" + Decimal(now);
      history := [];
    }

    /** Starts a new conversation: forgets the id and the transcript; the user
        id and the sidebar stay. */
    method StartNewChat()
      requires Valid()
      modifies this
      ensures Valid()
      ensures conversationId == None && messages == []
      ensures history == old(history)
    {
      conversationId := None;
      messages := [];
    }

    /** Opens a conversation from the sidebar: overwrites the id whatever it
        was, and leaves the transcript as it is. */
    method LoadChatHistory(id: string)
      requires Valid()
      modifies this
      ensures Valid()
      ensures conversationId == Some(id)
      ensures messages == old(messages) && history == old(history)
    {
      conversationId := Some(id);
    }

    /** Deletes a sidebar entry once the user confirmed: removes the first entry
        for `id`, and starts a new chat when that is the current conversation.
        Nothing changes without confirmation or without such an entry. */
    method DeleteChatHistory(id: string, confirmed: bool)
      requires Valid()
      modifies this
      ensures Valid()
      ensures var k := IndexOf(old(history), id);
        if confirmed && k.Some? then
          history == old(history)[..k.value] + old(history)[k.value + 1..] &&
          if old(conversationId) == Some(id) then conversationId == None && messages == []
          else conversationId == old(conversationId) && messages == old(messages)
        else
          history == old(history) && conversationId == old(conversationId) && messages == old(messages)
    {
      if confirmed {
        var k := IndexOf(history, id);
        if k.Some? {
          history := history[..k.value] + history[k.value + 1..];
          if conversationId == Some(id) {
            StartNewChat();
          }
        }
      }
    }

    /** Renames the first sidebar entry for `id` to the text the user entered,
        when it is non-empty and differs from the current title. */
    method EditChatTitle(id: string, entered: Option<string>)
      requires Valid()
      modifies this
      ensures Valid()
      ensures conversationId == old(conversationId) && messages == old(messages)
      ensures var k := IndexOf(old(history), id);
        if k.Some? && entered.Some? && entered.value != "" && entered.value != old(history)[k.value].title then
          history == old(history)[k.value := HistoryItem(id, entered.value)]
        else
          history == old(history)
    {
      var k := IndexOf(history, id);
      if k.Some? {
        var current := history[k.value].title;
        if entered.Some? && entered.value != "" && entered.value != current {
          history := history[k.value := HistoryItem(id, entered.value)];
        }
      }
    }

    /** A click on a sidebar entry's delete button. The button sits inside the
        entry, whose own click listener loads the conversation, and nothing
        stops the click from reaching it: the deletion (confirmed or not) is
        always followed by loading `id`. Deleting the current conversation thus
        leaves `id` current again, with an empty transcript. */
    method DeleteButtonClick(id: string, confirmed: bool)
      requires Valid()
      modifies this
      ensures Valid()
      ensures conversationId == Some(id)
      ensures var k := IndexOf(old(history), id);
        if confirmed && k.Some? then
          history == old(history)[..k.value] + old(history)[k.value + 1..] &&
          messages == if old(conversationId) == Some(id) then [] else old(messages)
        else
          history == old(history) && messages == old(messages)
    {
      DeleteChatHistory(id, confirmed);
      LoadChatHistory(id);
    }

    /** A click on a sidebar entry's edit button: the rename, then the entry's
        own click listener loads the conversation. */
    method EditButtonClick(id: string, entered: Option<string>)
      requires Valid()
      modifies this
      ensures Valid()
      ensures conversationId == Some(id) && messages == old(messages)
      ensures var k := IndexOf(old(history), id);
        if k.Some? && entered.Some? && entered.value != "" && entered.value != old(history)[k.value].title then
          history == old(history)[k.value := HistoryItem(id, entered.value)]
        else
          history == old(history)
    {
      EditChatTitle(id, entered);
      LoadChatHistory(id);
    }

    /** The inner loop of a read: the lines of one chunk, in order. Each
        `data: ` line whose payload parses is one record; a `message` record
        appends its `answer` to the text and sets the conversation id when the
        session has none and the record carries one. */
    method ReadLines(lines: seq<string>, parse: Parser, ghost id0: Option<string>, ghost done: seq<Record>,
                     text: string)
      returns (assistant: string)
      requires text == Answer(done)
      requires conversationId == Captured(id0, done)
      modifies this`conversationId
      ensures assistant == Answer(done + DecodeLines(parse, lines))
      ensures conversationId == Captured(id0, done + DecodeLines(parse, lines))
    {
      assistant := text;
      var j := 0;
      assert done + DecodeLines(parse, lines[..0]) == done by {
        assert lines[..0] == [];
      }
      while j < |lines|
        invariant 0 <= j <= |lines|
        invariant assistant == Answer(done + DecodeLines(parse, lines[..j]))
        invariant conversationId == Captured(id0, done + DecodeLines(parse, lines[..j]))
      {
        var line := lines[j];
        ghost var before := done + DecodeLines(parse, lines[..j]);
        DecodeNextLine(parse, done, lines, j);
        if |line| >= |DataPrefix| && line[..|DataPrefix|] == DataPrefix {
          var parsed := parse(line[|DataPrefix|..]);
          if parsed.Some? {
            var data := parsed.value;
            // `message_end` only logs its metadata; other events are ignored.
            if data.event == "message" {
              assistant := assistant + data.answer;
              if HasId(data.conversationId) && !HasId(conversationId) {
                conversationId := data.conversationId;
              }
            }
            assert DecodeLine(parse, line) == [data];
            AnswerSnoc(before, data);
            CaptureNext(id0, before, data);
          } else {
            assert DecodeLine(parse, line) == [];
            assert before + [] == before;
          }
        } else {
          assert DecodeLine(parse, line) == [];
          assert before + [] == before;
        }
        j := j + 1;
      }
      assert lines[..|lines|] == lines;
    }

    /** The read loop of a send: decodes every chunk on its own, line by line,
        appending the `answer` of each `message` record to the returned text and
        capturing the conversation id from the first record that carries one
        while the session has none. */
    method ReadReplyStream(chunks: seq<string>, parse: Parser) returns (assistant: string)
      modifies this`conversationId
      ensures assistant == Answer(DecodeChunks(parse, chunks))
      ensures conversationId == Captured(old(conversationId), DecodeChunks(parse, chunks))
    {
      ghost var id0 := conversationId;
      assistant := "";
      var i := 0;
      assert chunks[..0] == [];
      while i < |chunks|
        invariant 0 <= i <= |chunks|
        invariant assistant == Answer(DecodeChunks(parse, chunks[..i]))
        invariant conversationId == Captured(id0, DecodeChunks(parse, chunks[..i]))
      {
        var lines := SplitLines(chunks[i]);
        assistant := ReadLines(lines, parse, id0, DecodeChunks(parse, chunks[..i]), assistant);
        assert DecodeChunks(parse, chunks[..i + 1]) == DecodeChunks(parse, chunks[..i]) + DecodeChunk(parse, chunks[i]) by {
          assert chunks[..i + 1] == chunks[..i] + [chunks[i]];
          DecodeChunksSnoc(parse, chunks[..i], chunks[i]);
        }
        i := i + 1;
      }
      assert chunks[..|chunks|] == chunks;
    }

    /** Sends one user message and consumes the reply stream.

        The request always carries the query, the user, the current
        conversation id (`null` when unset) and `response_mode: 'streaming'`,
        plus one image attachment when `fileData` is truthy.

        While the stream is read, the conversation id is captured first-write-
        wins from the decoded records. When the stream ends normally, the user
        turn and the assistant turn (the concatenated deltas) are appended, and
        a sidebar entry is added when this was the first exchange of a
        conversation with an id. Otherwise the transcript and the sidebar are
        left as they were. */
    method SendMessage(message: string, fileData: Json, reply: Reply, parse: Parser)
      returns (request: map<string, Json>)
      requires Valid()
      modifies this
      ensures Valid()
      ensures request.Keys == {"query", "user", "conversation_id", "response_mode"}
                              + (if Truthy(fileData) then {"files"} else {})
      ensures request["query"] == Str(message) && request["user"] == Str(currentUser)
      ensures request["conversation_id"] == IdJson(old(conversationId))
      ensures request["response_mode"] == Str("streaming")
      ensures "files" in request ==> request["files"] == Arr([ImageAttachment(Field(fileData, "url"))])
      ensures HasId(old(conversationId)) ==> conversationId == old(conversationId)
      ensures reply.NoStream? ==> conversationId == old(conversationId)
      ensures reply.Stream? ==> conversationId == Captured(old(conversationId), DecodeChunks(parse, reply.chunks))
      ensures reply.Stream? && !reply.readFails ==>
        messages == old(messages) + [Turn(User, message), Turn(Assistant, Answer(DecodeChunks(parse, reply.chunks)))] &&
        history == if HasId(conversationId) && |messages| == 2
                   then [HistoryItem(conversationId.value, Title(message))] + old(history)
                   else old(history)
      ensures reply.NoStream? || reply.readFails ==> messages == old(messages) && history == old(history)
    {
      request := map["query" := Str(message), "user" := Str(currentUser),
                     "conversation_id" := IdJson(conversationId), "response_mode" := Str("streaming")];
      if Truthy(fileData) {
        request := request["files" := Arr([ImageAttachment(Field(fileData, "url"))])];
      }
      if reply.NoStream? {
        return;
      }

      ghost var id0 := conversationId;
      var assistant := ReadReplyStream(reply.chunks, parse);
      if HasId(id0) {
        CapturedKeepsSetId(id0, DecodeChunks(parse, reply.chunks));
      }
      if reply.readFails {
        return;
      }

      AppendExchangeValid(messages, message, assistant);
      messages := messages + [Turn(User, message), Turn(Assistant, assistant)];
      if HasId(conversationId) && |messages| == 2 {
        history := [HistoryItem(conversationId.value, Title(message))] + history;
      }
    }
  }
}
