/** The serverless chat handler: the same assembly and relay as the Express
    route, behind a method check, with CORS headers on the stream and a JSON
    error reaction to a mid-stream upstream error. */
module ApiChat {
  import opened Js
  import opened Proxy

  const StreamHeaders: seq<ResEvent> :=
    EventStreamHeaders +
    [SetHeader("Access-Control-Allow-Origin", "*"),
     SetHeader("Access-Control-Allow-Headers", "Cache-Control")]

  /** `res.status(500).json({ error: 'Stream error' })` on an upstream `error` event. */
  const StreamErrorReaction: seq<ResEvent> := [SetStatus(500), SendJson(ErrorObj("Stream error"))]

  method Handler(httpMethod: string, body: map<string, Json>, upstream: Outcome<UpstreamStream>)
    returns (trace: seq<ResEvent>, calls: seq<Call>)
    ensures httpMethod != "POST" ==>
              trace == [SetStatus(405), SendJson(ErrorObj("Method not allowed"))] && calls == []
    ensures httpMethod == "POST" ==>
              |calls| == 1 && calls[0].PostChatMessages? && AssembledFrom(body, calls[0].body)
    ensures httpMethod == "POST" && upstream.Fail? ==>
              trace == [SetStatus(500), SendJson(ErrorReply("Internal server error", upstream.failure))]
    ensures httpMethod == "POST" && upstream.Ok? ==>
              Relayed(StreamHeaders, upstream.value, StreamErrorReaction, trace) &&
              BodyBytes(trace) == Flatten(upstream.value.chunks) &&
              forall i, j :: 0 <= i < |trace| && 0 <= j < |trace| && trace[i].SetHeader? && trace[j].Write? ==> i < j
  {
    if httpMethod != "POST" {
      trace := [SetStatus(405), SendJson(ErrorObj("Method not allowed"))];
      calls := [];
      return;
    }
    var data := BuildChatBody(body);
    calls := [PostChatMessages(data)];
    match upstream
    case Fail(f) =>
      trace := [SetStatus(500), SendJson(ErrorReply("Internal server error", f))];
    case Ok(stream) =>
      trace := Relay(StreamHeaders, stream, StreamErrorReaction);
      RelayPreservesBytes(StreamHeaders, stream, StreamErrorReaction, trace);
      RelayHeadersFirst(StreamHeaders, stream, StreamErrorReaction, trace);
  }

  /** The stream carries the event-stream framing and the open CORS headers. */
  lemma StreamHeadersNamed()
    ensures SetHeader("Content-Type", "text/event-stream") in StreamHeaders
    ensures SetHeader("Cache-Control", "no-cache") in StreamHeaders
    ensures SetHeader("Connection", "keep-alive") in StreamHeaders
    ensures SetHeader("Access-Control-Allow-Origin", "*") in StreamHeaders
    ensures NoWrites(StreamHeaders)
  {
    assert StreamHeaders[0] == SetHeader("Content-Type", "text/event-stream");
    assert StreamHeaders[3] == SetHeader("Access-Control-Allow-Origin", "*");
  }

  /** An upstream error before the first chunk: nothing has been written, and
      the handler's error reaction sends a 500 with a JSON error body. */
  lemma StreamErrorBeforeFirstChunk(trace: seq<ResEvent>)
    requires Relayed(StreamHeaders, UpstreamStream([], Errored), StreamErrorReaction, trace)
    ensures NoWrites(trace)
    ensures trace[|trace| - 2..] == [SetStatus(500), SendJson(ErrorObj("Stream error"))]
  {
    assert Writes([]) == [];
    assert trace == StreamHeaders + StreamErrorReaction;
  }

  /** After chunks have gone out, a mid-stream error still tries to set a
      status and send a JSON body, on a response already committed as an
      event stream. */
  lemma StreamErrorAfterCommit(stream: UpstreamStream, trace: seq<ResEvent>)
    requires stream.ending == Errored && stream.chunks != []
    requires Relayed(StreamHeaders, stream, StreamErrorReaction, trace)
    ensures exists i, j :: 0 <= i < j < |trace| && trace[i].Write? && trace[j] == SetStatus(500)
  {
    var n := |StreamHeaders| + |stream.chunks|;
    assert trace[|StreamHeaders|] == Write(stream.chunks[0]);
    assert trace[n] == SetStatus(500);
  }
}
