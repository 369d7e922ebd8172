/**
 * The completion client's request bounds, request payload and response
 * decoding (core_inference/model_loader.py). The HTTP exchange itself is
 * not modelled: decoding starts from the already-parsed JSON object.
 */
module ModelLoader {
  import opened Wrappers

  /** A parsed JSON value; numbers keep Python's int/float distinction. */
  datatype Json =
    | JNull
    | JBool(b: bool)
    | JInt(i: int)
    | JNum(r: real)
    | JStr(s: string)
    | JArr(items: seq<Json>)
    | JObj(fields: map<string, Json>)

  /** Python truthiness of a decoded JSON value. */
  predicate Truthy(j: Json) {
    match j
    case JNull => false
    case JBool(b) => b
    case JInt(i) => i != 0
    case JNum(r) => r != 0.0
    case JStr(s) => s != ""
    case JArr(items) => items != []
    case JObj(fields) => fields != map[]
  }

  // ---------------------------------------------------------------------
  // InferenceRequest.
  // ---------------------------------------------------------------------

  datatype InferenceRequest = InferenceRequest(
    prompt: string,
    maxTokens: int,
    temperature: real,
    topP: real,
    stop: Option<seq<string>>)

  const DefaultMaxTokens := 512
  const DefaultTemperature := 0.2
  const DefaultTopP := 0.95

  /** The field constraints: `1 <= max_tokens <= 4096`, `0 <= temperature <= 2`, `0 <= top_p <= 1`. */
  predicate ValidRequest(r: InferenceRequest) {
    1 <= r.maxTokens <= 4096 && 0.0 <= r.temperature <= 2.0 && 0.0 <= r.topP <= 1.0
  }

  /** Construction of an `InferenceRequest`: a validation error for a value out of bounds. */
  function NewRequest(prompt: string, maxTokens: int, temperature: real, topP: real,
                      stop: Option<seq<string>>): (r: Result<InferenceRequest, string>)
    ensures r.Success? <==> 1 <= maxTokens <= 4096 && 0.0 <= temperature <= 2.0 && 0.0 <= topP <= 1.0
    ensures r.Success? ==>
              ValidRequest(r.value) && r.value == InferenceRequest(prompt, maxTokens, temperature, topP, stop)
  {
    var req := InferenceRequest(prompt, maxTokens, temperature, topP, stop);
    if ValidRequest(req) then Success(req) else Failure("validation error")
  }

  /** A request built from a prompt and the defaults is valid. */
  lemma DefaultsValid(prompt: string)
    ensures NewRequest(prompt, DefaultMaxTokens, DefaultTemperature, DefaultTopP, None).Success?
  {
  }

  // ---------------------------------------------------------------------
  // LlamaCppClient.complete: the payload.
  // ---------------------------------------------------------------------

  /**
   * The request body: prompt and sampling settings, with `max_tokens` sent
   * as `n_predict`, plus `"stop"` only when a non-empty stop list is given.
   */
  method BuildPayload(req: InferenceRequest) returns (payload: map<string, Json>)
    ensures payload.Keys == {"prompt", "n_predict", "temperature", "top_p"}
      + (if req.stop.Some? && req.stop.value != [] then {"stop"} else {})
    ensures payload["prompt"] == JStr(req.prompt) && payload["n_predict"] == JInt(req.maxTokens)
    ensures payload["temperature"] == JNum(req.temperature) && payload["top_p"] == JNum(req.topP)
    ensures "stop" in payload ==> payload["stop"] == JArr(Strings(req.stop.value))
  {
    payload := map[
      "prompt" := JStr(req.prompt),
      "n_predict" := JInt(req.maxTokens),
      "temperature" := JNum(req.temperature),
      "top_p" := JNum(req.topP)];
    if req.stop.Some? && req.stop.value != [] {
      payload := payload["stop" := JArr(Strings(req.stop.value))];
    }
  }

  /** A list of strings as a JSON array. */
  function Strings(xs: seq<string>): (r: seq<Json>)
    ensures |r| == |xs| && forall i :: 0 <= i < |xs| ==> r[i] == JStr(xs[i])
  {
    seq(|xs|, i requires 0 <= i < |xs| => JStr(xs[i]))
  }

  // ---------------------------------------------------------------------
  // LlamaCppClient.complete: decoding the response.
  // ---------------------------------------------------------------------

  /** The Python exception a decoding step can raise. */
  datatype PyError = KeyError | TypeError | AttributeError

  /** `d.get(key, default)`. */
  function Get(d: map<string, Json>, key: string, default: Json): Json {
    if key in d then d[key] else default
  }

  /**
   * `ch.get("text", "") or ch.get("content", "")` for the first choice `ch`:
   * indexing a non-empty choices value with `[0]` and calling `.get` on the
   * result fail unless the value is a list whose first entry is an object.
   */
  function FirstChoice(choices: Json): (r: Result<Json, PyError>)
    requires Truthy(choices)
  {
    match choices
    case JArr(items) =>
      (match items[0]
       case JObj(ch) =>
         var text := Get(ch, "text", JStr(""));
         Success(if Truthy(text) then text else Get(ch, "content", JStr("")))
       case _ => Failure(AttributeError))   // `.get` on a non-object
    case JObj(_) => Failure(KeyError)         // `{...}[0]`: object keys are strings
    case JStr(_) => Failure(AttributeError)   // `"..."[0]` is a string
    case _ => Failure(TypeError)              // a number or `true` is not subscriptable
  }

  /**
   * The value `complete` returns for the decoded response `data`, trying in
   * order: a string `"content"`, the first of a non-empty `"choices"`, a
   * string `"text"`, and finally `str(data)` (the parameter `stringify`).
   */
  function Extract(data: map<string, Json>, stringify: map<string, Json> -> string): (r: Result<Json, PyError>)
    ensures r.Failure? ==> "choices" in data && Truthy(data["choices"]) && !("content" in data && data["content"].JStr?)
  {
    if "content" in data && data["content"].JStr? then Success(data["content"])
    else if "choices" in data && Truthy(data["choices"]) then FirstChoice(data["choices"])
    else if "text" in data && data["text"].JStr? then Success(data["text"])
    else Success(JStr(stringify(data)))
  }

  /** A string `"content"` is returned before `"choices"` or `"text"` are looked at. */
  lemma ContentFirst(data: map<string, Json>, c: Json, t: Json, stringify: map<string, Json> -> string)
    requires "content" in data && data["content"].JStr?
    ensures Extract(data["choices" := c]["text" := t], stringify) == Success(data["content"])
  {
    var d := data["choices" := c]["text" := t];
    assert "content" in d && d["content"] == data["content"];
  }

  /**
   * Without a string `"content"`, a non-empty list of choices decides the
   * result: the first choice's `"text"` when truthy, else its `"content"`,
   * else `""`; the top-level `"text"` is never consulted on this path.
   */
  lemma ChoicesIgnoreTopLevelText(data: map<string, Json>, t: Json, stringify: map<string, Json> -> string)
    requires !("content" in data && data["content"].JStr?)
    requires "choices" in data && data["choices"].JArr? && data["choices"].items != []
    requires data["choices"].items[0].JObj?
    ensures var ch := data["choices"].items[0].fields;
      && Extract(data, stringify) == Extract(data["text" := t], stringify)
      && Extract(data, stringify) == Success(
           if "text" in ch && Truthy(ch["text"]) then ch["text"]
           else if "content" in ch then ch["content"] else JStr(""))
  {
    var d := data["text" := t];
    assert d["choices"] == data["choices"];
    assert "content" in d <==> "content" in data;
    assert "content" in d ==> d["content"] == data["content"];
  }

  /** With neither a string `"content"` nor non-empty choices, a string `"text"` is returned. */
  lemma TextThird(data: map<string, Json>, stringify: map<string, Json> -> string)
    requires !("content" in data && data["content"].JStr?)
    requires !("choices" in data && Truthy(data["choices"]))
    requires "text" in data && data["text"].JStr?
    ensures Extract(data, stringify) == Success(data["text"])
  {
  }

  /**
   * Decoding fails exactly when the first branch that applies is the
   * choices branch and the choices value is not a list whose first entry is
   * an object; every other response decodes, to `str(data)` at worst.
   */
  lemma ExtractFailsOnlyOnBadChoices(data: map<string, Json>, stringify: map<string, Json> -> string)
    ensures Extract(data, stringify).Failure? <==>
      && !("content" in data && data["content"].JStr?)
      && "choices" in data && Truthy(data["choices"])
      && !(data["choices"].JArr? && data["choices"].items[0].JObj?)
    ensures Extract(data, stringify).Success? && !("content" in data && data["content"].JStr?)
      && !("choices" in data && Truthy(data["choices"]))
      && !("text" in data && data["text"].JStr?)
      ==> Extract(data, stringify) == Success(JStr(stringify(data)))
  {
  }
}
