/** The serverless upload handler: it forwards nothing and answers with a
    placeholder record for the file it was given. */
module ApiUpload {
  import opened Js
  import opened Proxy

  const MockIdPrefix: string := "mock-file-"
  const PlaceholderUrl: string := "/placeholder-image.png"
  const DefaultFileName: string := "uploaded-file"

  /** `'mock-file-' + Date.now()`. */
  function MockId(now: nat): (id: string)
    ensures |id| > |MockIdPrefix| && id[..|MockIdPrefix|] == MockIdPrefix
    ensures IsDecimal(id[|MockIdPrefix|..]) && ValueOf(id[|MockIdPrefix|..]) == now
  {
    var id := MockIdPrefix + Decimal(now);
    assert id[|MockIdPrefix|..] == Decimal(now);
    id
  }

  /** Two uploads at different clock readings get different ids. */
  lemma MockIdsDistinct(now1: nat, now2: nat)
    requires now1 != now2
    ensures MockId(now1) != MockId(now2)
  {
  }

  /** The shape of the returned record: exactly `id`, `url`, `name` and `type`,
      with a mock id, the placeholder url, type `image`, and the file's own name
      when it has a truthy one. */
  predicate IsMockRecord(r: Json, file: Json) {
    r.Obj? && r.fields.Keys == {"id", "url", "name", "type"} &&
    r.fields["id"].Str? && |r.fields["id"].s| > |MockIdPrefix| &&
    r.fields["id"].s[..|MockIdPrefix|] == MockIdPrefix &&
    r.fields["url"] == Str(PlaceholderUrl) &&
    r.fields["type"] == Str("image") &&
    r.fields["name"] == (if Truthy(Field(file, "name")) then Field(file, "name") else Str(DefaultFileName))
  }

  function Handler(httpMethod: string, body: map<string, Json>, now: nat): (r: Response)
    ensures r.JsonBody?
    ensures r.status == 405 <==> httpMethod != "POST"
    ensures r.status == 400 <==> httpMethod == "POST" && !Truthy(Get(body, "file"))
    ensures r.status == 200 <==> httpMethod == "POST" && Truthy(Get(body, "file"))
    ensures r.status == 400 ==> r.body == ErrorObj("No file provided")
    ensures r.status == 200 ==> IsMockRecord(r.body, Get(body, "file"))
  {
    if httpMethod != "POST" then
      JsonBody(405, ErrorObj("Method not allowed"))
    else
      var file := Get(body, "file");
      if !Truthy(file) then
        JsonBody(400, ErrorObj("No file provided"))
      else
        JsonBody(200, Obj(map["id" := Str(MockId(now)), "url" := Str(PlaceholderUrl),
                              "name" := Or(Field(file, "name"), Str(DefaultFileName)),
                              "type" := Str("image")]))
  }
}
