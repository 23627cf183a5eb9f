/** The Express server's routes: the streaming chat relay, the image upload
    with its type filter and size limit, and conversation deletion. */
module Server {
  import opened Js
  import opened Proxy
  import ChatClient

  // ---------------------------------------------------------------------------
  // POST /api/chat

  /** Assembles the upstream body, makes the one streaming call, and either
      relays the stream (a mid-stream `error` just ends the response, like
      `end`) or, when the call fails before streaming, replies 500. */
  method ChatRoute(body: map<string, Json>, upstream: Outcome<UpstreamStream>)
    returns (trace: seq<ResEvent>, calls: seq<Call>)
    ensures |calls| == 1 && calls[0].PostChatMessages? && AssembledFrom(body, calls[0].body)
    ensures upstream.Fail? ==>
              trace == [SetStatus(500), SendJson(ErrorReply("Failed to process chat request", upstream.failure))]
    ensures upstream.Ok? ==> Relayed(EventStreamHeaders, upstream.value, [End], trace)
    ensures upstream.Ok? ==> BodyBytes(trace) == Flatten(upstream.value.chunks)
    ensures upstream.Ok? ==> trace[..3] == EventStreamHeaders && trace[|trace| - 1] == End
    ensures NoWrites(trace) <==> upstream.Fail? || upstream.value.chunks == []
  {
    var data := BuildChatBody(body);
    calls := [PostChatMessages(data)];
    match upstream
    case Fail(f) =>
      trace := [SetStatus(500), SendJson(ErrorReply("Failed to process chat request", f))];
    case Ok(stream) =>
      trace := Relay(EventStreamHeaders, stream, [End]);
      RelayPreservesBytes(EventStreamHeaders, stream, [End], trace);
      assert trace[..3] == EventStreamHeaders;
      if stream.chunks != [] {
        assert trace[3] == Write(stream.chunks[0]);
      }
  }

  /** On this route a mid-stream upstream error ends the response exactly as
      the end of the stream does: the browser sees no error body. */
  lemma StreamErrorEndsQuietly(chunks: seq<Bytes>, trace: seq<ResEvent>)
    requires Relayed(EventStreamHeaders, UpstreamStream(chunks, Errored), [End], trace)
    ensures Relayed(EventStreamHeaders, UpstreamStream(chunks, Ended), [End], trace)
    ensures forall i :: 0 <= i < |trace| ==> !trace[i].SendJson? && !trace[i].SetStatus?
  {
    assert forall i :: 0 <= i < |trace| ==> trace[i].SetHeader? || trace[i].Write? || trace[i] == End;
  }

  // ---------------------------------------------------------------------------
  // POST /api/files/upload

  /** The file part the upload middleware sees. */
  datatype FilePart = FilePart(mimetype: string, size: nat, originalName: string)

  /** The upload size limit, 10 MiB. */
  const MaxFileSize: nat := 10 * 1024 * 1024

  const AllowedImageTypes: seq<string> := ["image/png", "image/jpg", "image/jpeg", "image/webp", "image/gif"]

  /** The upload middleware's file filter. */
  function FileFilter(mimetype: string): (allowed: bool)
    ensures allowed ==> |mimetype| >= |ChatClient.ImagePrefix| && mimetype[..|ChatClient.ImagePrefix|] == ChatClient.ImagePrefix
    ensures mimetype == "image/jpeg" || mimetype == "image/png" ==> allowed
  {
    mimetype in AllowedImageTypes
  }

  /** The middleware accepts a part when its type passes the filter and it is
      within the size limit. */
  function AcceptsPart(part: FilePart): (accepted: bool)
    ensures part.size > MaxFileSize ==> !accepted
    ensures accepted ==> ChatClient.OnFileChosen(Some(part.mimetype)) == ChatClient.Upload
  {
    FileFilter(part.mimetype) && part.size <= MaxFileSize
  }

  /** Every type the server accepts also passes the browser's `image/` check. */
  lemma FilterWithinClientGuard(mimetype: string)
    requires FileFilter(mimetype)
    ensures ChatClient.OnFileChosen(Some(mimetype)) == ChatClient.Upload
  {
  }

  /** The converse does not hold: the browser uploads SVG images, which the
      server's filter rejects. */
  lemma ClientGuardLooser()
    ensures ChatClient.OnFileChosen(Some("image/svg+xml")) == ChatClient.Upload
    ensures !FileFilter("image/svg+xml")
  {
    assert "image/svg+xml"[..|ChatClient.ImagePrefix|] == ChatClient.ImagePrefix;
  }

  /** The form values the multipart encoder takes for the `user` field: a
      string, or a number it turns into one. Any other value (a missing
      `user` in particular) makes `formData.append` throw. */
  predicate FormValue(v: Json) {
    v.Str? || v.Num?
  }

  /** A rejected part (by type or size) goes to the application's error
      handler, which replies 500 with a fixed body; a request without a file
      part replies 400. Otherwise the form is built: when appending `user`
      throws (with message `appendError`), the route replies 500 without any
      call; else the file is forwarded once and the upstream reply is passed
      through, or translated into a 500. */
  function UploadRoute(file: Option<FilePart>, body: map<string, Json>, appendError: string, upstream: Outcome<Json>)
    : (h: Handled)
    ensures h.calls != [] <==> file.Some? && AcceptsPart(file.value) && FormValue(Get(body, "user"))
    ensures file.Some? && !AcceptsPart(file.value) ==>
              h.response == JsonBody(500, ErrorObj("Something went wrong!"))
    ensures file.None? ==> h.response == JsonBody(400, ErrorObj("No file uploaded"))
    ensures file.Some? && AcceptsPart(file.value) && !FormValue(Get(body, "user")) ==>
              h.response == JsonBody(500, ErrorReply("Failed to upload file", Failure(Undefined, appendError)))
    ensures h.calls != [] ==>
              h.calls == [UploadFile(file.value.originalName, file.value.mimetype, Get(body, "user"))] &&
              h.response == match upstream
                            case Ok(data) => JsonBody(200, data)
                            case Fail(f) => JsonBody(500, ErrorReply("Failed to upload file", f))
  {
    match file
    case Some(part) =>
      if !AcceptsPart(part) then
        Handled(JsonBody(500, ErrorObj("Something went wrong!")), [])
      else if !FormValue(Get(body, "user")) then
        Handled(JsonBody(500, ErrorReply("Failed to upload file", Failure(Undefined, appendError))), [])
      else
        var call := UploadFile(part.originalName, part.mimetype, Get(body, "user"));
        (match upstream
         case Ok(data) => Handled(JsonBody(200, data), [call])
         case Fail(f) => Handled(JsonBody(500, ErrorReply("Failed to upload file", f)), [call]))
    case None =>
      Handled(JsonBody(400, ErrorObj("No file uploaded")), [])
  }

  /** An upload without a `user` field never reaches the upstream: building
      the form throws first, and the route's own handler replies 500 with
      the thrown message. */
  lemma UploadWithoutUser(part: FilePart, body: map<string, Json>, appendError: string, upstream: Outcome<Json>)
    requires AcceptsPart(part) && "user" !in body
    ensures UploadRoute(Some(part), body, appendError, upstream) ==
            Handled(JsonBody(500, ErrorReply("Failed to upload file", Failure(Undefined, appendError))), [])
  {
  }

  // ---------------------------------------------------------------------------
  // DELETE /api/conversations/:conversationId

  /** Forwards the deletion once; success is an empty 204, failure a 500. */
  function DeleteConversationRoute(conversationId: string, body: map<string, Json>, upstream: Outcome<Json>): (h: Handled)
    ensures h.calls == [DeleteConversation(Str(conversationId), Get(body, "user"))]
    ensures h.response.NoBody? <==> upstream.Ok?
    ensures upstream.Ok? ==> h.response == NoBody(204)
    ensures upstream.Fail? ==> h.response == JsonBody(500, ErrorReply("Failed to delete conversation", upstream.failure))
  {
    var call := DeleteConversation(Str(conversationId), Get(body, "user"));
    match upstream
    case Ok(_) => Handled(NoBody(204), [call])
    case Fail(f) => Handled(JsonBody(500, ErrorReply("Failed to delete conversation", f)), [call])
  }
}
