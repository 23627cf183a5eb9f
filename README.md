# Chat proxy and streaming client, modelled in Dafny

The system is a thin backend in front of a hosted conversational-AI API (the
"upstream"), plus a single-page chat client. The backend comes in two forms
that share their logic: an Express server (`server.js`) and serverless
handlers (`api/*.js`). This project models the parts of it that hold logic.

- **The client's stream decoder** (`SseDecoder`). Each chunk of the reply
  stream is split on `'\n'`. Only the lines that start with `data: ` are kept,
  and the rest of the line is handed to JSON parsing. `message` records add
  their `answer` delta to the assistant text. The first truthy
  `conversation_id` is captured, and a later one never replaces it. Each
  chunk is decoded on its own: no partial line is carried across chunks.
- **The client's session** (`ChatClient.Session`). It holds `appState`
  (conversation id, transcript, user id) and the sidebar history list. The
  class covers sending a message, starting a new chat, loading and deleting a
  history entry, and renaming one. Sending is a method with the source's two
  nested read loops. Pure helpers cover the title truncation, the
  feature-button prompts, the submit guard (`trim`) and the image-type guard.
- **Server-side assembly, relay and error translation** (`Proxy`, `Server`,
  `ApiChat`). The upstream chat body is built and then extended in place with
  the optional fields. The relay is an event trace: headers, then one write
  per upstream chunk in arrival order, then the reaction to `end` or `error`.
  A failed outbound call gives a 500. Its `message` is the upstream's message
  when that is truthy, otherwise the local error message. Both chat routes ask
  for the upstream response as a stream (server.js:63, api/chat.js:36), so on a
  failed chat call the error's response data is a stream with no `message`
  and the local message is the one reported; the model's `Failure` leaves the
  upstream message free, which admits more than these routes can show.
- **The serverless conversation and upload handlers** (`ApiConversations`,
  `ApiUpload`). These are pure dispatch functions from a request (and the
  upstream outcome) to a response and the list of outbound calls made.

JSON parsing, `TextDecoder`, `fetch`, `axios` and the clock are not
modelled. They appear as inputs: a parser function `string -> Option<Record>`,
already-decoded text chunks, an `Outcome` (`Ok` value, or `Fail` with the
upstream and local messages), and a `now: nat` clock reading.

Behaviours of the code that a reader might expect otherwise, all modelled as written:

- A decoder with a partial-line buffer would not depend on chunk boundaries.
  The client keeps no such buffer, so a record cut across two chunks is lost
  (`SseDecoder.SplitRecordDropped`).
- The conversation id is first-write-wins only within one send
  (`SendMessage`). Between sends, `startNewChat` clears it and
  `loadChatHistory` overwrites it unconditionally.
- On a mid-stream upstream error, `server.js` only ends the response, with no
  error body (`Server.StreamErrorEndsQuietly`). `api/chat.js` answers 500 with
  a JSON error body: before the first chunk this is the body the browser gets
  (`ApiChat.StreamErrorBeforeFirstChunk`), and after chunks were written it
  still tries to set the status (`ApiChat.StreamErrorAfterCommit`).
- `server.js` forwards an uploaded file upstream (`Server.UploadRoute`), while
  `api/files/upload.js` answers with a mock record and forwards nothing
  (`ApiUpload.Handler`).

Each sidebar entry's edit and delete buttons sit inside the entry, whose own
click listener loads that conversation (public/app.js:272-294), and nothing
stops the click from reaching it. A button click is therefore the action
followed by `loadChatHistory` (`Session.EditButtonClick`,
`Session.DeleteButtonClick`), even when the deletion is not confirmed.
Deleting the current conversation leaves its id current again, with an empty
transcript, so the next send continues the deleted conversation and adds its
sidebar entry again.

One consequence of the code, shown by the session's contracts:
`loadChatHistory` does not reset the transcript. So loading a conversation
right after `startNewChat` and sending a message is again a "first exchange",
and a second sidebar entry for that conversation is added.

## Model

| member | source | states |
|---|---|---|
| `SseDecoder.SplitLines` | public/app.js:154 | `split('\n')` yields at least one piece, no piece contains a newline, and joining the pieces with newlines gives back the chunk |
| `SseDecoder.SplitJoin` | public/app.js:154 | splitting is also a left inverse of joining, for pieces without newlines |
| `SseDecoder.DataPayloadIff` | public/app.js:157-159 | a line yields payload `p` exactly when it is `data: ` followed by `p` (the payload is the line minus its first 6 characters) |
| `SseDecoder.DataPayload` | public/app.js:157-159 | a line has a payload exactly when it starts with `data: `, and the payload is the rest of the line after those 6 characters |
| `SseDecoder.DecodeLine` | public/app.js:157-180 | a line contributes at most one record, exactly one when it has the `data: ` prefix and its payload parses, and that record is what parsing the payload returns |
| `SseDecoder.DecodeLines` | public/app.js:156-182 | the lines of a chunk decode, in order, to at most one record per line; which record each line gives is `DecodeLine`, and `SkippedLine` states that undecodable lines drop out |
| `SseDecoder.DecodeChunks` | public/app.js:149-182 | no chunks give no records and a single chunk gives that chunk's records; `DecodeChunksAppend` states that each chunk is decoded on its own, in order |
| `SseDecoder.SkippedLine` | public/app.js:158-180 | a line that is not a data line, or whose payload fails to parse, is skipped: the lines before and after it decode as if it were absent |
| `SseDecoder.DecodeChunksAppend` | public/app.js:149-157 | decoding a stream is decoding its chunks one after the other, each on its own |
| `SseDecoder.SplitRecordDropped` | public/app.js:149-157 | a `data:` line cut into two chunks, whether inside the prefix or inside a payload whose halves do not decode, yields no record; the same line in one chunk yields its record |
| `SseDecoder.Answer` | public/app.js:161-162 | a single record contributes its delta when it is a `message` and nothing otherwise; `AnswerAppend` (the text of a stream is the texts of its parts, in order), `AnswerOfMessages` and `AnswerIgnoresOthers` state the rest |
| `SseDecoder.AnswerAppend` | public/app.js:146-177 | the assistant text over a stream is the text of each part, concatenated in order |
| `SseDecoder.AnswerOfMessages` | public/app.js:161-162 | for `message` records with deltas d1..dN the text is d1 + ... + dN |
| `SseDecoder.AnswerIgnoresOthers` | public/app.js:174-177 | `message_end` and unknown events add nothing to the text |
| `SseDecoder.CaptureStep` | public/app.js:171-173 | one record sets the id only when the id is unset and the record is a `message` with a truthy id; a set id is kept |
| `SseDecoder.Captured` | public/app.js:171-173 | the id after a run of records is the starting id or the id of one of the `message` records; `CapturedKeepsSetId` and `CapturedIsFirstId` say which |
| `SseDecoder.CapturedKeepsSetId` | public/app.js:171-173 | once the session's id is set (truthy), no record changes it |
| `SseDecoder.CapturedIsFirstId` | public/app.js:171-173 | from an unset id, the session ends with the id of the first `message` record carrying a truthy one, or stays unset if none does |
| `SseDecoder.OneChunkReply` | public/app.js:149-183 | a `message` record ("Hi", id "c1") and a `message_end` record in one chunk give the text "Hi" and set an unset id to "c1" |
| `ChatClient.Title` | public/app.js:191 | the title is the message when it has at most 30 characters, otherwise its first 30 characters followed by `...` |
| `ChatClient.TitleShape` | public/app.js:191 | a title has at most 33 characters and starts with the message's first min(30, length) characters |
| `ChatClient.FeaturePrompt` | public/app.js:449-462 | a feature button gives a non-empty prompt exactly for the labels Write, Learn, Code and Life stuff |
| `ChatClient.TrimStart` | public/app.js:374 | leading trim keeps a suffix that does not start with white space and drops only white space |
| `ChatClient.TrimEnd` | public/app.js:374 | trailing trim keeps a prefix that does not end with white space and drops only white space |
| `ChatClient.Trim` | public/app.js:374 | `trim` gives an empty string exactly when the input is all white space, and otherwise a string that neither starts nor ends with white space |
| `ChatClient.TrimIsInnerPiece` | public/app.js:374 | what `trim` keeps is one contiguous piece of the input, with only white space before and after it |
| `ChatClient.SubmitGuard` | public/app.js:374-375 | submit sends nothing exactly when the input is all white space; otherwise it sends the trimmed input, which is non-empty and has no white space at either end |
| `ChatClient.OnFileChosen` | public/app.js:405-412 | a chosen file is uploaded exactly when its type starts with `image/`; no file means nothing happens |
| `ChatClient.ImageMessage` | public/app.js:418 | the message sent with an image is never empty: the raw input when non-empty, else the fixed image prompt |
| `ChatClient.IndexOf` | public/app.js:313 | finds the first sidebar entry for an id, or reports that none has it |
| `ChatClient.Session.constructor` | public/app.js:2-6 | a new session has no conversation id, an empty transcript and sidebar, and user id `user-` followed by the clock reading |
| `ChatClient.Session.StartNewChat` | public/app.js:351-353 | clears the conversation id and the transcript and leaves the sidebar and the user id alone |
| `ChatClient.Session.LoadChatHistory` | public/app.js:340 | overwrites the conversation id unconditionally; the transcript and the sidebar are unchanged |
| `ChatClient.Session.DeleteChatHistory` | public/app.js:311-325 | with confirmation, removes the first entry for the id and starts a new chat exactly when that id is the current one; otherwise nothing changes |
| `ChatClient.Session.EditChatTitle` | public/app.js:298-308 | renames the first entry for the id when the entered title is non-empty and differs from the current one; nothing else changes |
| `ChatClient.Session.DeleteButtonClick` | public/app.js:272-294 | a delete click removes the first entry for the id when confirmed, and always ends with the id current; the transcript is emptied exactly when a confirmed deletion hits the current conversation |
| `ChatClient.Session.EditButtonClick` | public/app.js:272-294 | an edit click renames as `EditChatTitle` does, keeps the transcript, and always ends with the id current |
| `ChatClient.Session.ReadLines` | public/app.js:156-182 | the loop over one chunk's lines extends the text by the `message` deltas of the records those lines decode to, and the id by first-write-wins capture over them |
| `ChatClient.Session.ReadReplyStream` | public/app.js:149-183 | the read loop returns the in-order concatenation of the `message` deltas of all decoded records and leaves the id as first-write-wins capture over them |
| `ChatClient.Session.SendMessage` | public/app.js:99-203 | sends query, user, current id (`null` when unset), `streaming`, and one image attachment exactly when fileData is truthy; a complete stream appends the user turn then the assistant turn; a sidebar entry (id, title) is added only when the id is set and the transcript has exactly two turns; a failed fetch or read leaves transcript and sidebar unchanged; a set id is never changed; the transcript keeps alternating user and assistant turns |
| `Proxy.ErrorMessage` | server.js:90 | the error message is the upstream `data.message` when truthy, otherwise the local `error.message` |
| `Proxy.ErrorReply` | server.js:88-91 | a 500 body has exactly the fields `error` (the route's category) and `message` |
| `Proxy.ErrorMessageSource` | server.js:90 | the reported message is always one of the two sources, and is falsy only when both are |
| `Proxy.BuildChatBody` | server.js:36-52 | the upstream body always has `query`, `user`, `response_mode` (`streaming` when undefined) and empty `inputs`; `conversation_id` is present exactly when truthy and `files` exactly when non-empty, both copied unchanged |
| `Proxy.Relay` | server.js:68-84 | the trace is the headers, then one write per upstream chunk in arrival order, then `end` on upstream end or the handler's error reaction on upstream error |
| `Proxy.RelayPreservesBytes` | server.js:73-79 | the bytes written with `res.write` equal the concatenation of the upstream chunks |
| `Proxy.RelayHeadersFirst` | server.js:68-75 | every header is set before any chunk is written |
| `Server.ChatRoute` | server.js:34-93 | one outbound call with the assembled body; a failure before streaming gives 500 and no written bytes; otherwise the three event-stream headers come first, the bytes written with `res.write` are the upstream bytes, and the response ends |
| `Server.StreamErrorEndsQuietly` | server.js:81-84 | a mid-stream upstream error ends the response exactly as a normal end does, with no status change or error body |
| `Server.FileFilter` | server.js:22-30 | every type the filter allows starts with `image/`, and PNG and JPEG are allowed |
| `Server.AcceptsPart` | server.js:17-31 | a part over 10 MiB is refused, and every accepted part also passes the client's `image/` check |
| `Server.FilterWithinClientGuard` | server.js:22-30 | every type the upload filter accepts also passes the client's `image/` check |
| `Server.ClientGuardLooser` | server.js:24-25 | the converse fails: `image/svg+xml` passes the client but not the server's allow-list |
| `Server.UploadRoute` | server.js:96-135 | an outbound call happens exactly for a file of an allowed type within 10 MiB whose `user` field is a string or number; a rejected file gives the error handler's 500, a missing file gives 400, and a `user` the form cannot take gives 500 with the thrown message, all with no call; a successful upload passes the upstream body through with 200, and a failed one gives 500 |
| `Server.UploadWithoutUser` | server.js:104-112 | an accepted file sent without `user` makes no outbound call and gets 500 `Failed to upload file` with the thrown message |
| `Server.DeleteConversationRoute` | server.js:190-215 | one delete call for the path id; an empty 204 exactly on success, otherwise 500 with the translated message |
| `ApiChat.Handler` | api/chat.js:4-67 | a non-POST gives 405 with no call; a POST makes one call with the assembled body; a failure before streaming gives 500 `Internal server error`; otherwise the trace is the relay with the CORS headers, the bytes written with `res.write` equal the upstream bytes, and every header precedes every write |
| `ApiChat.StreamHeadersNamed` | api/chat.js:40-44 | the stream sets `text/event-stream`, `no-cache`, `keep-alive` and `Access-Control-Allow-Origin: *`, and writes no body bytes itself |
| `ApiChat.StreamErrorBeforeFirstChunk` | api/chat.js:55-58 | an upstream error before any chunk writes nothing and ends with status 500 and the JSON body `{ error: 'Stream error' }`, which is then the whole response body |
| `ApiChat.StreamErrorAfterCommit` | api/chat.js:55-58 | after a chunk has been written, a mid-stream error still tries to set status 500 |
| `ApiConversations.ListLimit` | api/conversations.js:8 | `limit` is 20 when undefined, otherwise as given |
| `ApiConversations.DeleteTarget` | api/conversations.js:24 | the id to delete is the query's `conversationId` when truthy, otherwise the body's |
| `ApiConversations.Handler` | api/conversations.js:4-55 | 405 exactly for methods other than GET and DELETE; 400 exactly for a DELETE without a truthy id; neither makes a call; GET forwards `user`, `last_id` and the limit; a successful DELETE gives 204; any upstream failure gives 500 with the translated message |
| `ApiConversations.DeleteWithoutIdFailsFast` | api/conversations.js:24-29 | a DELETE with the id missing from query and body gives 400 with no outbound call, whatever the upstream would answer |
| `ApiUpload.MockId` | api/files/upload.js:22 | the mock id is `mock-file-` followed by the decimal clock reading |
| `ApiUpload.MockIdsDistinct` | api/files/upload.js:22 | different clock readings give different ids |
| `ApiUpload.Handler` | api/files/upload.js:3-37 | 405 exactly for non-POST; 400 `No file provided` exactly for a POST without a truthy file; otherwise 200 with a record of exactly `id`, `url`, `name` and `type`, where the id starts with `mock-file-`, the url is the placeholder, the type is `image`, and the name is the file's name if truthy, else `uploaded-file` |

## Left out

- ChatClient.Title: lengths are counted in Unicode scalar values, while JavaScript counts UTF-16 code units. A message containing characters outside the Basic Multilingual Plane (emoji) is cut at a different place.
- Rendering and browser chrome: adding message bubbles, the typing indicator, the welcome screen, textarea resizing, the mobile sidebar, the "active" highlight and time label of history entries, and the dialogs themselves. The answers to `confirm` and `prompt` are parameters (`confirmed`, `entered`).
- `fetch`, `axios`, `TextDecoder`, `JSON.parse` and `Date.now()` are foreign calls. They are inputs of the model, as described above. `handleFileUpload` (public/app.js:206-228) is one such call; its result is the `fileData` parameter of `SendMessage`.
- The record's `message_id` only tags a rendered element, so it is not modelled. A non-string `answer` (JavaScript's `+=` coercion) is not modelled either; `answer` is a string.
- Numbers are integers: floating point and `NaN` are left out of truthiness. `HasItems` gives a length only to arrays and strings, not to objects with a `length` property.
- Request bodies are objects. A missing body, which would make the destructuring throw and end in the 500 path, is not modelled. A missing key and an `undefined` value are the same. The upstream body is the object before `JSON.stringify`, which drops `undefined` fields.
- ChatClient.Session.EditChatTitle: titles are modelled as the raw string. The client inserts a new title into the sidebar as HTML (public/app.js:263-268) and reads it back as text (public/app.js:301), so a message containing markup or entities (such as `What does <div> do?`) shows a different title, and the "differs from the current title" test compares against that text. HTML parsing of the title is not modelled.
- ApiChat.Handler: its bytes are those written with `res.write`; the JSON error body that the error reaction sends when the upstream fails before the first chunk is a separate `SendJson` event, stated by `ApiChat.StreamErrorBeforeFirstChunk`. In Node, setting a status and sending JSON after the stream was written would throw; the model records the attempted events instead.
- Server.UploadRoute: which `user` values `formData.append` accepts is behaviour of the `form-data` library, which is not part of this model; strings and numbers are taken to be accepted and every other value to throw, with the thrown message as the `appendError` parameter.
- Server.UploadRoute: the upload middleware's two rejections (filter and size) both reach the application error handler (server.js:255-259). Its fixed 500 body is modelled; its logging is not.
- The server's GET `/api/conversations`, GET `/api/messages` and POST `/api/chat-messages/:taskId/stop` routes, and `api/messages.js`, are single-call pass-throughs outside the modelled core. `api/chat-messages/[taskId]/stop.js`, `index.js` and `config.js` (environment lookup), static file serving, the SPA fallback and CORS middleware are not part of this model.
- Concurrency and the event loop: each request, and each stream, is one sequential trace. A stream that never ends is not modelled.
- The client's `deleteChatHistory` makes no API call (the source leaves that as a comment), and neither does the model.
