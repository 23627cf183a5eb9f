/** What the server-side handlers share: the outbound calls they make, the
    outcome of such a call, the error translation they all apply, the chat
    body they assemble for the upstream `/chat-messages` endpoint, and the
    relay that forwards the upstream event stream to the browser. */
module Proxy {
  import opened Js

  newtype byte = b: int | 0 <= b < 256

  type Bytes = seq<byte>

  /** The outbound calls a handler can make to the upstream service. */
  datatype Call =
    | PostChatMessages(body: map<string, Json>)
    | UploadFile(filename: string, mimetype: string, user: Json)
    | ListConversations(user: Json, lastId: Json, limit: Json)
    | DeleteConversation(id: Json, user: Json)

  /** Why an outbound call failed: `error.response?.data?.message` (`Undefined`
      when the upstream sent none, or there was no response at all) and the
      local `error.message`. */
  datatype Failure = Failure(upstreamMessage: Json, localMessage: string)

  /** The outcome of one outbound call. */
  datatype Outcome<T> = Ok(value: T) | Fail(failure: Failure)

  /** A reply sent in one piece: `res.status(s).json(body)` (status 200 when
      not set), or `res.status(s).send()` with no body. */
  datatype Response = JsonBody(status: nat, body: Json) | NoBody(status: nat)

  /** A response together with the outbound calls made while producing it. */
  datatype Handled = Handled(response: Response, calls: seq<Call>)

  /** `error.response?.data?.message || error.message`. */
  function ErrorMessage(f: Failure): (m: Json)
    ensures Truthy(f.upstreamMessage) ==> m == f.upstreamMessage
    ensures !Truthy(f.upstreamMessage) ==> m == Str(f.localMessage)
  {
    Or(f.upstreamMessage, Str(f.localMessage))
  }

  /** The body of every 500 reply after a failed outbound call. */
  function ErrorReply(category: string, f: Failure): (r: Json)
    ensures r.Obj? && r.fields.Keys == {"error", "message"}
    ensures r.fields["error"] == Str(category) && r.fields["message"] == ErrorMessage(f)
  {
    Obj(map["error" := Str(category), "message" := ErrorMessage(f)])
  }

  /** The reported message is never lost: it is the upstream one when that is
      truthy, and the local one (which may be "") otherwise. */
  lemma ErrorMessageSource(f: Failure)
    ensures ErrorMessage(f) == f.upstreamMessage || ErrorMessage(f) == Str(f.localMessage)
    ensures Truthy(ErrorMessage(f)) <==> Truthy(f.upstreamMessage) || f.localMessage != ""
  {
  }

  // ---------------------------------------------------------------------------
  // Assembling the upstream chat body

  const DefaultResponseMode: Json := Str("streaming")

  /** The upstream chat body `data` assembled from the browser's body: always
      `query`, `user`, `response_mode` (`'streaming'` when the browser left it
      undefined) and an empty `inputs`; `conversation_id` only when truthy and
      `files` only when non-empty, each copied unchanged. */
  ghost predicate AssembledFrom(body: map<string, Json>, data: map<string, Json>) {
    data.Keys == {"query", "user", "response_mode", "inputs"}
                 + (if Truthy(Get(body, "conversation_id")) then {"conversation_id"} else {})
                 + (if HasItems(Get(body, "files")) then {"files"} else {}) &&
    data["query"] == Get(body, "query") &&
    data["user"] == Get(body, "user") &&
    data["response_mode"] == (if Get(body, "response_mode") == Undefined then DefaultResponseMode
                              else Get(body, "response_mode")) &&
    data["inputs"] == Obj(map[]) &&
    ("conversation_id" in data ==> data["conversation_id"] == Get(body, "conversation_id")) &&
    ("files" in data ==> data["files"] == Get(body, "files"))
  }

  /** Builds `requestData` and extends it in place with the optional fields. */
  method BuildChatBody(body: map<string, Json>) returns (data: map<string, Json>)
    ensures AssembledFrom(body, data)
    ensures "conversation_id" in data <==> Truthy(Get(body, "conversation_id"))
    ensures "files" in data <==> HasItems(Get(body, "files"))
    ensures data["response_mode"] != Undefined
  {
    var query, user := Get(body, "query"), Get(body, "user");
    var conversationId, files := Get(body, "conversation_id"), Get(body, "files");
    var responseMode := Get(body, "response_mode");
    if responseMode == Undefined {
      responseMode := DefaultResponseMode;
    }
    data := map["query" := query, "user" := user, "response_mode" := responseMode, "inputs" := Obj(map[])];
    if Truthy(conversationId) {
      data := data["conversation_id" := conversationId];
    }
    if HasItems(files) {
      data := data["files" := files];
    }
  }

  // ---------------------------------------------------------------------------
  // Relaying the upstream stream

  /** What a handler does to its response object, in order. */
  datatype ResEvent =
    | SetHeader(name: string, value: string)
    | SetStatus(code: nat)
    | Write(chunk: Bytes)
    | SendJson(body: Json)
    | End

  /** How the upstream body stream finished: an `end` or an `error` event. */
  datatype StreamEnd = Ended | Errored

  /** An upstream streaming body: the chunks of its `data` events in arrival
      order, then how it finished. */
  datatype UpstreamStream = UpstreamStream(chunks: seq<Bytes>, ending: StreamEnd)

  const EventStreamHeaders: seq<ResEvent> :=
    [SetHeader("Content-Type", "text/event-stream"),
     SetHeader("Cache-Control", "no-cache"),
     SetHeader("Connection", "keep-alive")]

  /** One `res.write(chunk)` per upstream chunk, in order. */
  function Writes(chunks: seq<Bytes>): (w: seq<ResEvent>)
    ensures |w| == |chunks| && forall k :: 0 <= k < |chunks| ==> w[k] == Write(chunks[k])
  {
    seq(|chunks|, k requires 0 <= k < |chunks| => Write(chunks[k]))
  }

  /** The trace of a relay: the framing headers, every chunk written verbatim
      in arrival order, then `res.end()` on `end`, or the handler's own error
      reaction on `error`. */
  ghost predicate Relayed(headers: seq<ResEvent>, stream: UpstreamStream, onError: seq<ResEvent>, trace: seq<ResEvent>) {
    trace == headers + Writes(stream.chunks) + (if stream.ending == Ended then [End] else onError)
  }

  predicate NoWrites(events: seq<ResEvent>) {
    forall i :: 0 <= i < |events| ==> !events[i].Write?
  }

  /** Sets the framing headers, then forwards each upstream chunk as its
      `data` event fires and reacts to the final `end` or `error` event. */
  method Relay(headers: seq<ResEvent>, stream: UpstreamStream, onError: seq<ResEvent>)
    returns (trace: seq<ResEvent>)
    ensures Relayed(headers, stream, onError, trace)
  {
    trace := headers;
    var i := 0;
    while i < |stream.chunks|
      invariant 0 <= i <= |stream.chunks|
      invariant trace == headers + Writes(stream.chunks[..i])
    {
      assert Writes(stream.chunks[..i + 1]) == Writes(stream.chunks[..i]) + [Write(stream.chunks[i])];
      trace := trace + [Write(stream.chunks[i])];
      i := i + 1;
    }
    assert stream.chunks[..i] == stream.chunks;
    match stream.ending
    case Ended => trace := trace + [End];
    case Errored => trace := trace + onError;
  }

  /** The bytes written with `res.write`: the written chunks, concatenated.
      A body sent as JSON by an error reaction is not counted here. */
  function BodyBytes(trace: seq<ResEvent>): Bytes {
    if trace == [] then []
    else
      var last := trace[|trace| - 1];
      BodyBytes(trace[..|trace| - 1]) + (if last.Write? then last.chunk else [])
  }

  /** All upstream chunks, concatenated. */
  function Flatten(chunks: seq<Bytes>): Bytes {
    if chunks == [] then [] else chunks[0] + Flatten(chunks[1..])
  }

  lemma {:induction false} BodyBytesAppend(a: seq<ResEvent>, b: seq<ResEvent>)
    ensures BodyBytes(a + b) == BodyBytes(a) + BodyBytes(b)
  {
    if b == [] {
      assert a + b == a;
    } else {
      BodyBytesAppend(a, b[..|b| - 1]);
      assert (a + b)[..|a + b| - 1] == a + b[..|b| - 1];
    }
  }

  lemma {:induction false} NoWritesNoBytes(events: seq<ResEvent>)
    requires NoWrites(events)
    ensures BodyBytes(events) == []
  {
    if events != [] {
      NoWritesNoBytes(events[..|events| - 1]);
    }
  }

  lemma {:induction false} WritesCarryChunks(chunks: seq<Bytes>)
    ensures BodyBytes(Writes(chunks)) == Flatten(chunks)
  {
    if chunks != [] {
      WritesCarryChunks(chunks[1..]);
      assert Writes(chunks) == [Write(chunks[0])] + Writes(chunks[1..]);
      BodyBytesAppend([Write(chunks[0])], Writes(chunks[1..]));
      assert [Write(chunks[0])][..0] == [];
    }
  }

  /** Downstream bytes equal upstream bytes: when neither the framing nor the
      error reaction writes body bytes, the browser receives exactly the
      concatenation of the upstream chunks. */
  lemma RelayPreservesBytes(headers: seq<ResEvent>, stream: UpstreamStream, onError: seq<ResEvent>, trace: seq<ResEvent>)
    requires NoWrites(headers) && NoWrites(onError)
    requires Relayed(headers, stream, onError, trace)
    ensures BodyBytes(trace) == Flatten(stream.chunks)
  {
    var tail := if stream.ending == Ended then [End] else onError;
    BodyBytesAppend(headers + Writes(stream.chunks), tail);
    BodyBytesAppend(headers, Writes(stream.chunks));
    NoWritesNoBytes(headers);
    NoWritesNoBytes(tail);
    WritesCarryChunks(stream.chunks);
  }

  /** Every framing header is set before the first chunk is written. */
  lemma RelayHeadersFirst(headers: seq<ResEvent>, stream: UpstreamStream, onError: seq<ResEvent>, trace: seq<ResEvent>)
    requires NoWrites(headers) && NoWrites(onError)
    requires forall i :: 0 <= i < |onError| ==> !onError[i].SetHeader?
    requires Relayed(headers, stream, onError, trace)
    ensures forall i, j :: 0 <= i < |trace| && 0 <= j < |trace| && trace[i].SetHeader? && trace[j].Write? ==> i < j
  {
    var n := |headers| + |stream.chunks|;
    assert forall j :: 0 <= j < |trace| && trace[j].Write? ==> |headers| <= j < n;
    assert forall i :: 0 <= i < |trace| && trace[i].SetHeader? ==> i < |headers| || n <= i;
  }
}
