/** Which model an inbound request asks for (`extract_model_name`). The JSON parser is
    a parameter: `parse(text)` is `None` when `JSON.parse` raises `JSON::ParserError`. */
module ModelName {
  import opened Wrappers
  import opened Strings

  datatype Json =
    | JNull
    | JBool(b: bool)
    | JNumber(n: real)
    | JString(s: string)
    | JArray(items: seq<Json>)
    | JObject(fields: map<string, Json>)

  /** What extraction produces: the Ruby value it returns (`None` is `nil`), or the
      exception it lets escape. */
  datatype Extraction = Extracted(model: Option<Json>) | Raised(message: string)

  const KeyOnNonHash := "undefined method `key?'"

  /** A JSON value as the Ruby object it parses to: `null` is `nil`. */
  function RubyValue(j: Json): (r: Option<Json>)
    ensures r.None? <==> j.JNull?
  {
    if j.JNull? then None else Some(j)
  }

  /** Ruby truthiness: everything except `nil` and `false`. */
  predicate Truthy(v: Option<Json>) {
    v.Some? && v.value != JBool(false)
  }

  /** `params[key]`. */
  function Param(params: map<string, Json>, key: string): Option<Json> {
    if key in params then RubyValue(params[key]) else None
  }

  predicate IsGenerateOrChat(path: string) {
    Contains(path, "/api/generate") || Contains(path, "/api/chat")
  }

  /** The unanchored regexp `/api/pull|/api/push|/api/show` finds a match in `path`. */
  predicate IsPullPushShow(path: string) {
    Contains(path, "/api/pull") || Contains(path, "/api/push") || Contains(path, "/api/show")
  }

  /** `extract_model_name`. A generate/chat path reads `model` from the parsed body; a
      body that parses to JSON other than an object or `null` makes `body&.key?` raise
      `NoMethodError`, which the `rescue JSON::ParserError` does not catch. */
  function ExtractModelName(path: string, rawPost: string, params: map<string, Json>,
                            parse: string -> Option<Json>): Extraction
  {
    if IsGenerateOrChat(path) then
      if Blank(rawPost) then Extracted(None)
      else
        match parse(rawPost)
        case None => Extracted(None)
        case Some(JNull) => Extracted(None)
        case Some(JObject(fields)) =>
          if "model" in fields then Extracted(RubyValue(fields["model"])) else Extracted(None)
        case Some(_) => Raised(KeyOnNonHash)
    else if IsPullPushShow(path) then
      var name := Param(params, "name");
      Extracted(if Truthy(name) then name else Param(params, "model"))
    else
      Extracted(None)
  }

  /** A generate/chat body yields a model exactly when it parses to an object whose
      `model` member is not `null`, and then it yields that member. */
  lemma BodyModelIff(path: string, rawPost: string, params: map<string, Json>,
                     parse: string -> Option<Json>, v: Json)
    requires IsGenerateOrChat(path)
    ensures ExtractModelName(path, rawPost, params, parse) == Extracted(Some(v))
        <==> Present(rawPost) && v != JNull && parse(rawPost).Some? && parse(rawPost).value.JObject?
             && "model" in parse(rawPost).value.fields && parse(rawPost).value.fields["model"] == v
  {
  }

  /** Extraction raises exactly on a generate/chat path whose non-blank body is valid JSON
      but neither an object nor `null`; malformed JSON never raises. */
  lemma RaisesIff(path: string, rawPost: string, params: map<string, Json>,
                  parse: string -> Option<Json>)
    ensures ExtractModelName(path, rawPost, params, parse).Raised?
        <==> IsGenerateOrChat(path) && Present(rawPost) && parse(rawPost).Some?
             && !parse(rawPost).value.JNull? && !parse(rawPost).value.JObject?
    ensures IsGenerateOrChat(path) && Present(rawPost) && parse(rawPost).None?
        ==> ExtractModelName(path, rawPost, params, parse) == Extracted(None)
  {
  }

  /** A generate/chat path never looks at the parameters, even when it also contains a
      pull/push/show segment; any other path never looks at the body. */
  lemma ExtractionSources(path: string, rawPost1: string, rawPost2: string,
                          params1: map<string, Json>, params2: map<string, Json>,
                          parse1: string -> Option<Json>, parse2: string -> Option<Json>)
    ensures IsGenerateOrChat(path)
        ==> ExtractModelName(path, rawPost1, params1, parse1) == ExtractModelName(path, rawPost1, params2, parse1)
    ensures !IsGenerateOrChat(path)
        ==> ExtractModelName(path, rawPost1, params1, parse1) == ExtractModelName(path, rawPost2, params1, parse2)
  {
  }

  /** On a pull/push/show path the result is `params[:name]` when that is truthy, and
      `params[:model]` otherwise; a path that names none of the five endpoints gives `nil`. */
  lemma ParamsModel(path: string, rawPost: string, params: map<string, Json>,
                    parse: string -> Option<Json>)
    requires !IsGenerateOrChat(path)
    ensures IsPullPushShow(path) && "name" in params && Truthy(RubyValue(params["name"]))
        ==> ExtractModelName(path, rawPost, params, parse) == Extracted(Some(params["name"]))
    ensures IsPullPushShow(path) && !Truthy(Param(params, "name"))
        ==> ExtractModelName(path, rawPost, params, parse) == Extracted(Param(params, "model"))
    ensures !IsPullPushShow(path) ==> ExtractModelName(path, rawPost, params, parse) == Extracted(None)
  {
  }

  /** The cases of the controller's test suite. */
  lemma ExtractionExamples(parse: string -> Option<Json>, params: map<string, Json>)
    requires parse("{\"model\": \"llama2\", \"prompt\": \"test\"}")
             == Some(JObject(map["model" := JString("llama2"), "prompt" := JString("test")]))
    requires parse("{\"model\": \"mistral:7b\", \"messages\": []}")
             == Some(JObject(map["model" := JString("mistral:7b"), "messages" := JArray([])]))
    requires parse("invalid json") == None
    ensures ExtractModelName("/api/generate", "{\"model\": \"llama2\", \"prompt\": \"test\"}", params, parse)
            == Extracted(Some(JString("llama2")))
    ensures ExtractModelName("/api/chat", "{\"model\": \"mistral:7b\", \"messages\": []}", params, parse)
            == Extracted(Some(JString("mistral:7b")))
    ensures ExtractModelName("/api/generate", "invalid json", params, parse) == Extracted(None)
    ensures forall body :: ExtractModelName("/api/tags", body, params, parse) == Extracted(None)
  {
    GenerateAndChatPaths();
    assert !IsSpace("{\"model\": \"llama2\", \"prompt\": \"test\"}"[0]);
    assert !IsSpace("{\"model\": \"mistral:7b\", \"messages\": []}"[0]);
    assert !IsSpace("invalid json"[0]);
    NotContainsTags();
  }

  lemma GenerateAndChatPaths()
    ensures IsGenerateOrChat("/api/generate") && IsGenerateOrChat("/api/chat")
  {
    assert "/api/generate"[..|"/api/generate"|] == "/api/generate";
    assert "/api/chat"[..|"/api/chat"|] == "/api/chat";
  }

  lemma NotContainsTags()
    ensures !IsGenerateOrChat("/api/tags") && !IsPullPushShow("/api/tags")
  {
    var t := "/api/tags";
    assert t[..9][5] == 't';
    assert t[1..][..|t[1..]|] == t[1..];
  }
}
