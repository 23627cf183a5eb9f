/** The serverless conversations handler: listing on GET, deletion on DELETE,
    405 for anything else. */
module ApiConversations {
  import opened Js
  import opened Proxy

  const DefaultLimit: Json := Num(20)

  /** `limit` from the query string, 20 when it is undefined. */
  function ListLimit(query: map<string, Json>): (limit: Json)
    ensures Get(query, "limit") == Undefined ==> limit == DefaultLimit
    ensures Get(query, "limit") != Undefined ==> limit == Get(query, "limit")
  {
    var given := Get(query, "limit");
    if given == Undefined then DefaultLimit else given
  }

  /** The conversation to delete: the query's `conversationId` when truthy,
      otherwise the body's. */
  function DeleteTarget(query: map<string, Json>, body: map<string, Json>): (id: Json)
    ensures Truthy(Get(query, "conversationId")) ==> id == Get(query, "conversationId")
    ensures !Truthy(Get(query, "conversationId")) ==> id == Get(body, "conversationId")
  {
    Or(Get(query, "conversationId"), Get(body, "conversationId"))
  }

  function Handler(httpMethod: string, query: map<string, Json>, body: map<string, Json>, upstream: Outcome<Json>): (h: Handled)
    ensures h.response.status == 405 <==> httpMethod != "GET" && httpMethod != "DELETE"
    ensures h.response.status == 400 <==> httpMethod == "DELETE" && !Truthy(DeleteTarget(query, body))
    ensures |h.calls| <= 1
    ensures h.response.status == 400 || h.response.status == 405 ==> h.calls == []
    ensures httpMethod == "GET" ==>
              h.calls == [ListConversations(Get(query, "user"), Get(query, "last_id"), ListLimit(query))]
    ensures httpMethod == "DELETE" && Truthy(DeleteTarget(query, body)) ==>
              h.calls == [DeleteConversation(DeleteTarget(query, body), Get(body, "user"))]
    ensures h.calls != [] && upstream.Fail? ==>
              h.response == JsonBody(500, ErrorReply("Failed to process request", upstream.failure))
    ensures h.calls != [] && upstream.Ok? ==>
              h.response == if httpMethod == "GET" then JsonBody(200, upstream.value) else NoBody(204)
  {
    if httpMethod == "GET" then
      var call := ListConversations(Get(query, "user"), Get(query, "last_id"), ListLimit(query));
      match upstream
      case Ok(data) => Handled(JsonBody(200, data), [call])
      case Fail(f) => Handled(JsonBody(500, ErrorReply("Failed to process request", f)), [call])
    else if httpMethod == "DELETE" then
      var id := DeleteTarget(query, body);
      if !Truthy(id) then
        Handled(JsonBody(400, ErrorObj("Conversation ID is required")), [])
      else
        var call := DeleteConversation(id, Get(body, "user"));
        match upstream
        case Ok(_) => Handled(NoBody(204), [call])
        case Fail(f) => Handled(JsonBody(500, ErrorReply("Failed to process request", f)), [call])
    else
      Handled(JsonBody(405, ErrorObj("Method not allowed")), [])
  }

  /** A DELETE whose id is missing from both the query and the body fails fast
      with 400 and makes no outbound call, whatever the upstream would say. */
  lemma DeleteWithoutIdFailsFast(query: map<string, Json>, body: map<string, Json>, upstream: Outcome<Json>)
    requires !Truthy(Get(query, "conversationId")) && !Truthy(Get(body, "conversationId"))
    ensures Handler("DELETE", query, body, upstream) == Handled(JsonBody(400, ErrorObj("Conversation ID is required")), [])
  {
  }
}
