/** `chatCompletion` of src/lib/chatgpt.ts: one request to the chat-completions
    endpoint, answered either as a server-sent event stream, decoded line by line
    into tokens, or as one JSON document.

    The network is a parameter: `fetch` maps the request to the response, which is
    plain data (the chunks the body reader delivers, already decoded to text, and
    whether reading fails after them). Parsing JSON and reading fields of the parsed
    value is a `JsonReader`, a record of functions the model does not interpret. The
    callbacks `onToken`, `onComplete` and `onError` become a trace of `ChatEvent`s,
    and the returned or rejected promise becomes a `Result`. */
module ChatClient {
  import opened Wrappers
  import opened Strings

  // ---------------------------------------------------------------------------
  // Models

  /** One entry of `CHATGPT_MODELS`. */
  datatype ModelInfo = ModelInfo(id: string, name: string, maxTokens: nat)

  /** `CHATGPT_MODELS`: the models offered to prompt nodes. */
  const ChatModels: seq<ModelInfo> := [
    ModelInfo("gpt-3.5-turbo", "GPT-3.5 Turbo", 4096),
    ModelInfo("gpt-4o-mini", "GPT-4o Mini", 16384),
    ModelInfo("gpt-4o", "GPT-4o", 128000),
    ModelInfo("gpt-5", "GPT-5", 200000)
  ]

  // ---------------------------------------------------------------------------
  // The request

  datatype Role = System | User | Assistant

  function RoleName(r: Role): string {
    match r
    case System => "system"
    case User => "user"
    case Assistant => "assistant"
  }

  datatype ChatMessage = ChatMessage(role: Role, content: string)

  /** `ChatCompletionOptions` without the callbacks; an absent optional field is `None`. */
  datatype Options = Options(
    apiKey: string,
    model: string,
    messages: seq<ChatMessage>,
    temperature: Option<real>,
    maxTokens: Option<int>,
    stream: Option<bool>)

  const CompletionsUrl: string := "https://api.openai.com/v1/chat/completions"
  const DefaultTemperature: real := 0.7
  const DefaultMaxTokens: int := 2000
  const DefaultStream: bool := true

  /** A JSON value, as `JSON.stringify` writes the request body. Numbers are kept as
      exact reals. */
  datatype Json =
    | JString(s: string)
    | JNumber(n: real)
    | JBool(b: bool)
    | JArray(items: seq<Json>)
    | JObject(members: seq<(string, Json)>)

  /** The keys of an object, in order. */
  function Keys(members: seq<(string, Json)>): (keys: seq<string>)
    ensures |keys| == |members| && forall i :: 0 <= i < |members| ==> keys[i] == members[i].0
  {
    seq(|members|, i requires 0 <= i < |members| => members[i].0)
  }

  /** The value of `key` in a JSON object: the first member with that key. */
  function Field(v: Json, key: string): Option<Json> {
    if !v.JObject? then None else FieldOf(v.members, key)
  }

  function FieldOf(members: seq<(string, Json)>, key: string): (r: Option<Json>)
    ensures r.Some? <==> key in Keys(members)
    decreases |members|
  {
    if |members| == 0 then None
    else if members[0].0 == key then Some(members[0].1)
    else
      assert Keys(members)[1..] == Keys(members[1..]);
      FieldOf(members[1..], key)
  }

  function MessageJson(m: ChatMessage): Json {
    JObject([("role", JString(RoleName(m.role))), ("content", JString(m.content))])
  }

  datatype HttpRequest = HttpRequest(
    url: string,
    httpMethod: string,
    headers: seq<(string, string)>,
    body: Json)

  /** The `fetch` call: a POST of the JSON body with the bearer key. The body has
      exactly the keys `model`, `messages`, `temperature`, `max_tokens` and `stream`;
      there is no `response_format`. */
  function Request(opts: Options): (req: HttpRequest)
    ensures req.url == CompletionsUrl && req.httpMethod == "POST"
    ensures req.headers == [("Content-Type", "application/json"), ("Authorization", "Bearer " + opts.apiKey)]
    ensures req.body.JObject?
    ensures Keys(req.body.members) == ["model", "messages", "temperature", "max_tokens", "stream"]
    ensures "response_format" !in Keys(req.body.members)
  {
    var messages := seq(|opts.messages|, i requires 0 <= i < |opts.messages| => MessageJson(opts.messages[i]));
    HttpRequest(
      CompletionsUrl,
      "POST",
      [("Content-Type", "application/json"), ("Authorization", "Bearer " + opts.apiKey)],
      JObject([
        ("model", JString(opts.model)),
        ("messages", JArray(messages)),
        ("temperature", JNumber(opts.temperature.GetOr(DefaultTemperature))),
        ("max_tokens", JNumber(opts.maxTokens.GetOr(DefaultMaxTokens) as real)),
        ("stream", JBool(opts.stream.GetOr(DefaultStream)))]))
  }

  /** The body's values: the model and the messages as given; the temperature, the
      token limit and the stream flag, falling back to 0.7, 2000 and `true` when
      absent. */
  lemma RequestDefaults(opts: Options)
    ensures var body := Request(opts).body;
      && Field(body, "model") == Some(JString(opts.model))
      && Field(body, "temperature") ==
           Some(JNumber(if opts.temperature.Some? then opts.temperature.value else 0.7))
      && Field(body, "max_tokens") ==
           Some(JNumber(if opts.maxTokens.Some? then opts.maxTokens.value as real else 2000.0))
      && Field(body, "stream") == Some(JBool(opts.stream != Some(false)))
      && var ms := Field(body, "messages");
         && ms.Some? && ms.value.JArray? && |ms.value.items| == |opts.messages|
         && forall i :: 0 <= i < |opts.messages| ==> ms.value.items[i] == MessageJson(opts.messages[i])
  {
    var m := Request(opts).body.members;
    assert FieldOf(m[4..], "stream") == Some(m[4].1);
    assert FieldOf(m[3..], "max_tokens") == Some(m[3].1);
    assert FieldOf(m[3..], "stream") == FieldOf(m[4..], "stream");
    assert FieldOf(m[2..], "temperature") == Some(m[2].1);
    assert FieldOf(m[2..], "max_tokens") == FieldOf(m[3..], "max_tokens");
    assert FieldOf(m[2..], "stream") == FieldOf(m[3..], "stream");
    assert FieldOf(m[1..], "messages") == Some(m[1].1);
    assert FieldOf(m[1..], "temperature") == FieldOf(m[2..], "temperature");
    assert FieldOf(m[1..], "max_tokens") == FieldOf(m[2..], "max_tokens");
    assert FieldOf(m[1..], "stream") == FieldOf(m[2..], "stream");
  }

  // ---------------------------------------------------------------------------
  // The response

  /** The body as the reader delivers it: the decoded chunks, then either `done` or,
      when `failure` is present, a read that rejects with that message. */
  datatype Body = Body(chunks: seq<string>, failure: Option<string>)

  /** What `fetch` yields: a rejection, or a response with its `ok` flag and its body
      stream (`response.body`, which can be `null`). */
  datatype Response = FetchFailed(message: string) | Reply(ok: bool, body: Option<Body>)

  /** The JSON accesses, left uninterpreted. Each function gets the text of a body
      or of one `data: ` payload.
      - `delta`: `JSON.parse(data).choices[0]?.delta?.content`; `None` when parsing
        or the access throws, or the content is absent.
      - `content`: `data.choices[0]?.message?.content` of the parsed document; `Err`
        with the message of what `response.json()` or the access throws.
      - `errorMessage`: `error.error?.message` of the parsed error document; `Err` as
        for `content`. */
  datatype JsonReader = JsonReader(
    delta: string -> Option<string>,
    content: string -> Result<Option<string>, string>,
    errorMessage: string -> Result<Option<string>, string>)

  /** The text `response.json()` parses, or the message it rejects with when reading
      the body fails. A missing body reads as the empty text. */
  function BodyText(body: Option<Body>): Result<string, string> {
    match body
    case None => Ok("")
    case Some(b) => if b.failure.Some? then Err(b.failure.value) else Ok(Concat(b.chunks))
  }

  const FallbackError: string := "API request failed"

  /** The message of the error a non-OK response throws: the error document's
      `error.message` unless it is absent or empty, then `'API request failed'`;
      or the message of the failure while reading or parsing the document. */
  function ErrorMessage(body: Option<Body>, json: JsonReader): string {
    match BodyText(body)
    case Err(m) => m
    case Ok(text) =>
      match json.errorMessage(text)
      case Err(m) => m
      case Ok(message) => if message.Some? && message.value != "" then message.value else FallbackError
  }

  // ---------------------------------------------------------------------------
  // The stream decoder

  const DataPrefix: string := "data: "
  const DoneMarker: string := "[DONE]"

  predicate IsBlank(line: string) {
    Trim(line) == ""
  }

  /** `xs.filter(x => !drop(x))`. */
  function Without(xs: seq<string>, drop: string -> bool): (r: seq<string>)
    ensures |r| <= |xs|
    decreases |xs|
  {
    if |xs| == 0 then []
    else
      var last := xs[|xs| - 1];
      Without(xs[..|xs| - 1], drop) + (if drop(last) then [] else [last])
  }

  /** The filter keeps exactly the elements that are not dropped. */
  lemma {:induction false} WithoutKeeps(xs: seq<string>, drop: string -> bool)
    ensures forall x :: x in Without(xs, drop) <==> x in xs && !drop(x)
    decreases |xs|
  {
    if |xs| > 0 {
      var init := xs[..|xs| - 1];
      WithoutKeeps(init, drop);
      assert xs == init + [xs[|xs| - 1]];
    }
  }

  /** The filter works element by element, in order. */
  lemma {:induction false} WithoutAppend(a: seq<string>, b: seq<string>, drop: string -> bool)
    ensures Without(a + b, drop) == Without(a, drop) + Without(b, drop)
    decreases |b|
  {
    if |b| == 0 {
      assert a + b == a;
    } else {
      var ab, b0, last := a + b, b[..|b| - 1], b[|b| - 1];
      assert ab[..|ab| - 1] == a + b0 && ab[|ab| - 1] == last;
      WithoutAppend(a, b0, drop);
      var na, nb := Without(a, drop), Without(b0, drop);
      var tail := if drop(last) then [] else [last];
      assert Without(ab, drop) == (na + nb) + tail;
      assert (na + nb) + tail == na + (nb + tail);
    }
  }

  /** `lines.filter(line => line.trim() !== '')`. */
  function NonBlank(lines: seq<string>): seq<string> {
    Without(lines, IsBlank)
  }

  /** The filter keeps exactly the non-blank lines. */
  lemma NonBlankKeeps(lines: seq<string>)
    ensures forall line :: line in NonBlank(lines) <==> line in lines && !IsBlank(line)
  {
    WithoutKeeps(lines, IsBlank);
  }

  /** The filter keeps a single line iff it is not blank. */
  lemma NonBlankSingle(line: string)
    ensures NonBlank([line]) == if IsBlank(line) then [] else [line]
  {
    assert [line][..0] == [];
  }

  /** The filter of a concatenation keeps the kept lines of each part, in order.
      With `NonBlankSingle` this fixes the result to the non-blank lines in their
      original order. */
  lemma NonBlankAppend(a: seq<string>, b: seq<string>)
    ensures NonBlank(a + b) == NonBlank(a) + NonBlank(b)
  {
    WithoutAppend(a, b, IsBlank);
  }

  /** The lines of a chunk that the decoder looks at. */
  function ChunkLines(chunk: string): seq<string> {
    NonBlank(Split(chunk, '\n'))
  }

  /** What one line contributes: the delta content of a `data: ` line, unless the
      payload is `[DONE]`, does not parse or carries no content, or the content is
      empty. */
  function LineToken(line: string, json: JsonReader): (t: Option<string>)
    ensures t.Some? ==> t.value != ""
    ensures t.Some? ==> StartsWith(line, DataPrefix) && line[6..] != DoneMarker
  {
    if !StartsWith(line, DataPrefix) then None
    else
      var data := line[6..];
      if data == DoneMarker then None
      else
        var token := json.delta(data).GetOr("");
        if token != "" then Some(token) else None
  }

  function OptionList(t: Option<string>): seq<string> {
    if t.Some? then [t.value] else []
  }

  /** The tokens of a list of lines, in order. None of them is empty. */
  function LineTokens(lines: seq<string>, json: JsonReader): (ts: seq<string>)
    ensures forall i :: 0 <= i < |ts| ==> ts[i] != ""
    decreases |lines|
  {
    if |lines| == 0 then []
    else LineTokens(lines[..|lines| - 1], json) + OptionList(LineToken(lines[|lines| - 1], json))
  }

  /** The tokens one chunk yields, decoded on its own. */
  function ChunkTokens(chunk: string, json: JsonReader): seq<string> {
    LineTokens(ChunkLines(chunk), json)
  }

  /** The lists `f` gives for the elements of `xs`, concatenated in order. */
  function FlatMap(xs: seq<string>, f: string -> seq<string>): seq<string>
    decreases |xs|
  {
    if |xs| == 0 then [] else FlatMap(xs[..|xs| - 1], f) + f(xs[|xs| - 1])
  }

  function Decoder(json: JsonReader): string -> seq<string> {
    chunk => ChunkTokens(chunk, json)
  }

  /** The tokens of a sequence of chunks, in arrival order, each chunk decoded on
      its own. */
  function StreamTokens(chunks: seq<string>, json: JsonReader): seq<string> {
    FlatMap(chunks, Decoder(json))
  }

  // ---------------------------------------------------------------------------
  // The outcome

  /** One callback invocation: `onToken`, `onComplete` or `onError`. */
  datatype ChatEvent = Token(token: string) | Complete(text: string) | Failed(message: string)

  /** The callbacks fired, in order, and the settled promise. */
  datatype Outcome = Outcome(events: seq<ChatEvent>, result: Result<string, string>)

  function TokenEvents(tokens: seq<string>): seq<ChatEvent> {
    seq(|tokens|, i requires 0 <= i < |tokens| => Token(tokens[i]))
  }

  /** The catch block: `onError` with the error, which is then rethrown. */
  function Failure(message: string): Outcome {
    Outcome([Failed(message)], Err(message))
  }

  /** The stream branch: every token to `onToken`, then the concatenation to
      `onComplete` and as the result; or, when reading fails, the tokens decoded so
      far and then the read error. */
  function StreamOutcome(body: Body, json: JsonReader): Outcome {
    var tokens := StreamTokens(body.chunks, json);
    if body.failure.Some? then
      Outcome(TokenEvents(tokens) + [Failed(body.failure.value)], Err(body.failure.value))
    else
      Outcome(TokenEvents(tokens) + [Complete(Concat(tokens))], Ok(Concat(tokens)))
  }

  /** The non-stream branch: `choices[0].message.content`, or `''`, or the error
      that reading or parsing the document throws. */
  function DocumentOutcome(body: Option<Body>, json: JsonReader): Outcome {
    match BodyText(body)
    case Err(m) => Failure(m)
    case Ok(text) =>
      match json.content(text)
      case Err(m) => Failure(m)
      case Ok(content) =>
        var c := content.GetOr("");
        Outcome([Complete(c)], Ok(c))
  }

  /** `chatCompletion` as a function of the options, the network and the JSON
      reader. */
  function Completion(opts: Options, fetch: HttpRequest -> Response, json: JsonReader): Outcome {
    match fetch(Request(opts))
    case FetchFailed(m) => Failure(m)
    case Reply(ok, body) =>
      if !ok then Failure(ErrorMessage(body, json))
      else if opts.stream.GetOr(DefaultStream) && body.Some? then StreamOutcome(body.value, json)
      else DocumentOutcome(body, json)
  }

  // ---------------------------------------------------------------------------
  // The source's form

  lemma LineStep(lines: seq<string>, j: nat, json: JsonReader)
    requires j < |lines|
    ensures LineTokens(lines[..j + 1], json) == LineTokens(lines[..j], json) + OptionList(LineToken(lines[j], json))
  {
    assert lines[..j + 1][..j] == lines[..j];
  }

  lemma ChunkStep(chunks: seq<string>, i: nat, json: JsonReader)
    requires i < |chunks|
    ensures StreamTokens(chunks[..i + 1], json) == StreamTokens(chunks[..i], json) + ChunkTokens(chunks[i], json)
  {
    assert chunks[..i + 1][..i] == chunks[..i];
  }

  lemma TokenEventsAppend(ts: seq<string>, us: seq<string>)
    ensures TokenEvents(ts + us) == TokenEvents(ts) + TokenEvents(us)
  {
  }

  /** Records one decoded token behind what was recorded before:
      `fullResponse += token; onToken?.(token)`. */
  lemma {:induction false} EmitStep(events0: seq<ChatEvent>, full0: string, ts: seq<string>, t: Option<string>)
    ensures events0 + TokenEvents(ts + OptionList(t)) ==
      (events0 + TokenEvents(ts)) + (if t.Some? then [Token(t.value)] else [])
    ensures full0 + Concat(ts + OptionList(t)) == (full0 + Concat(ts)) + (if t.Some? then t.value else "")
  {
    TokenEventsAppend(ts, OptionList(t));
    if t.None? {
      assert ts + [] == ts;
    } else {
      assert (ts + [t.value])[..|ts|] == ts;
      assert TokenEvents([t.value]) == [Token(t.value)];
    }
  }

  /** The inner loop over the non-blank lines of one chunk: each token is appended
      to the text so far and reported. */
  method DecodeChunk(chunk: string, json: JsonReader, events0: seq<ChatEvent>, full0: string)
    returns (events: seq<ChatEvent>, full: string)
    ensures events == events0 + TokenEvents(ChunkTokens(chunk, json))
    ensures full == full0 + Concat(ChunkTokens(chunk, json))
  {
    var lines := ChunkLines(chunk);
    events, full := DecodeLines(lines, json, events0, full0);
  }

  /** The loop of `DecodeChunk` over the kept lines. */
  method DecodeLines(lines: seq<string>, json: JsonReader, events0: seq<ChatEvent>, full0: string)
    returns (events: seq<ChatEvent>, full: string)
    ensures events == events0 + TokenEvents(LineTokens(lines, json))
    ensures full == full0 + Concat(LineTokens(lines, json))
  {
    events, full := events0, full0;
    for j := 0 to |lines|
      invariant events == events0 + TokenEvents(LineTokens(lines[..j], json))
      invariant full == full0 + Concat(LineTokens(lines[..j], json))
    {
      var line := lines[j];
      var token: Option<string> := None;
      if StartsWith(line, DataPrefix) {
        var data := line[6..];
        if data != DoneMarker {
          var t := json.delta(data).GetOr("");
          if t != "" {
            token := Some(t);
          }
        }
      }
      assert token == LineToken(line, json);
      LineStep(lines, j, json);
      EmitStep(events0, full0, LineTokens(lines[..j], json), token);
      if token.Some? {
        full := full + token.value;
        events := events + [Token(token.value)];
      }
    }
    assert lines[..|lines|] == lines;
  }

  /** The read loop of the stream branch: chunk by chunk until the reader is done. */
  method ReadStream(body: Body, json: JsonReader) returns (events: seq<ChatEvent>, full: string)
    ensures events == TokenEvents(StreamTokens(body.chunks, json))
    ensures full == Concat(StreamTokens(body.chunks, json))
  {
    events, full := [], "";
    var i := 0;
    while i < |body.chunks|
      invariant i <= |body.chunks|
      invariant events == TokenEvents(StreamTokens(body.chunks[..i], json))
      invariant full == Concat(StreamTokens(body.chunks[..i], json))
    {
      ChunkStep(body.chunks, i, json);
      TokenEventsAppend(StreamTokens(body.chunks[..i], json), ChunkTokens(body.chunks[i], json));
      ConcatAppend(StreamTokens(body.chunks[..i], json), ChunkTokens(body.chunks[i], json));
      events, full := DecodeChunk(body.chunks[i], json, events, full);
      i := i + 1;
    }
    assert body.chunks[..i] == body.chunks;
  }

  /** `chatCompletion`: the request, the error mapping of a non-OK response, and the
      two ways of reading the answer. */
  method ChatCompletion(opts: Options, fetch: HttpRequest -> Response, json: JsonReader)
    returns (events: seq<ChatEvent>, result: Result<string, string>)
    ensures Outcome(events, result) == Completion(opts, fetch, json)
  {
    var response := fetch(Request(opts));
    if response.FetchFailed? {
      events, result := [Failed(response.message)], Err(response.message);
      return;
    }
    if !response.ok {
      var message := ErrorMessage(response.body, json);
      events, result := [Failed(message)], Err(message);
      return;
    }
    var stream := opts.stream.GetOr(DefaultStream);
    if stream && response.body.Some? {
      var body := response.body.value;
      var full;
      events, full := ReadStream(body, json);
      if body.failure.Some? {
        events, result := events + [Failed(body.failure.value)], Err(body.failure.value);
      } else {
        events, result := events + [Complete(full)], Ok(full);
      }
    } else {
      var text := BodyText(response.body);
      if text.Err? {
        events, result := [Failed(text.error)], Err(text.error);
        return;
      }
      var content := json.content(text.value);
      if content.Err? {
        events, result := [Failed(content.error)], Err(content.error);
        return;
      }
      var c := content.value.GetOr("");
      events, result := [Complete(c)], Ok(c);
    }
  }

  // ---------------------------------------------------------------------------
  // Properties of the stream decoder

  lemma {:induction false} LineTokensAppend(a: seq<string>, b: seq<string>, json: JsonReader)
    ensures LineTokens(a + b, json) == LineTokens(a, json) + LineTokens(b, json)
    decreases |b|
  {
    if |b| == 0 {
      assert a + b == a;
    } else {
      var b0, x := b[..|b| - 1], b[|b| - 1];
      assert (a + b)[..|a + b| - 1] == a + b0 && (a + b)[|a + b| - 1] == x;
      LineTokensAppend(a, b0, json);
      var la, lb, lx := LineTokens(a, json), LineTokens(b0, json), OptionList(LineToken(x, json));
      assert LineTokens(a + b, json) == (la + lb) + lx;
      assert (la + lb) + lx == la + (lb + lx);
    }
  }

  lemma {:induction false} FlatMapAppend(a: seq<string>, b: seq<string>, f: string -> seq<string>)
    ensures FlatMap(a + b, f) == FlatMap(a, f) + FlatMap(b, f)
    decreases |b|
  {
    if |b| == 0 {
      assert a + b == a;
    } else {
      var b0, x := b[..|b| - 1], b[|b| - 1];
      assert (a + b)[..|a + b| - 1] == a + b0 && (a + b)[|a + b| - 1] == x;
      FlatMapAppend(a, b0, f);
      var fa, fb, fx := FlatMap(a, f), FlatMap(b0, f), f(x);
      assert FlatMap(a + b, f) == (fa + fb) + fx;
      assert (fa + fb) + fx == fa + (fb + fx);
    }
  }

  /** Chunks are decoded independently: the tokens of `a ++ b` are those of `a`
      followed by those of `b`. */
  lemma StreamTokensAppend(a: seq<string>, b: seq<string>, json: JsonReader)
    ensures StreamTokens(a + b, json) == StreamTokens(a, json) + StreamTokens(b, json)
  {
    FlatMapAppend(a, b, Decoder(json));
  }

  lemma {:induction false} FlatMapNonEmpty(xs: seq<string>, f: string -> seq<string>)
    requires forall x :: forall j :: 0 <= j < |f(x)| ==> f(x)[j] != ""
    ensures forall i :: 0 <= i < |FlatMap(xs, f)| ==> FlatMap(xs, f)[i] != ""
    decreases |xs|
  {
    if |xs| > 0 {
      var init := xs[..|xs| - 1];
      FlatMapNonEmpty(init, f);
      var a, b := FlatMap(init, f), f(xs[|xs| - 1]);
      assert FlatMap(xs, f) == a + b;
      forall i | 0 <= i < |a + b| ensures (a + b)[i] != "" {
        if i >= |a| {
          assert (a + b)[i] == b[i - |a|];
        }
      }
    }
  }

  /** No token of the stream is empty. */
  lemma StreamTokensNonEmpty(chunks: seq<string>, json: JsonReader)
    ensures var ts := StreamTokens(chunks, json);
      forall i :: 0 <= i < |ts| ==> ts[i] != ""
  {
    var f := Decoder(json);
    forall x ensures forall j :: 0 <= j < |f(x)| ==> f(x)[j] != "" {
      assert f(x) == ChunkTokens(x, json);
    }
    FlatMapNonEmpty(chunks, f);
  }

  lemma LineTokensSingle(line: string, json: JsonReader)
    ensures LineTokens([line], json) == OptionList(LineToken(line, json))
  {
    assert [line][..0] == [];
  }

  /** A line that contributes no token can be dropped from anywhere in the list. */
  lemma SkipLine(a: seq<string>, line: string, b: seq<string>, json: JsonReader)
    requires LineToken(line, json).None?
    ensures LineTokens(a + [line] + b, json) == LineTokens(a, json) + LineTokens(b, json)
  {
    LineTokensAppend(a + [line], b, json);
    LineTokensAppend(a, [line], json);
    LineTokensSingle(line, json);
  }

  /** `data: [DONE]` is skipped with `continue`: it yields nothing and the lines after
      it are still decoded. */
  lemma DoneContinues(a: seq<string>, b: seq<string>, json: JsonReader)
    ensures LineTokens(a + [DataPrefix + DoneMarker] + b, json) == LineTokens(a, json) + LineTokens(b, json)
  {
    var line := DataPrefix + DoneMarker;
    assert line[..6] == DataPrefix && line[6..] == DoneMarker;
    SkipLine(a, line, b, json);
  }

  /** A payload that does not parse, or has no delta content, or an empty one, yields
      nothing and does not stop the stream. */
  lemma UnparseableSkipped(a: seq<string>, payload: string, b: seq<string>, json: JsonReader)
    requires json.delta(payload).GetOr("") == ""
    ensures LineTokens(a + [DataPrefix + payload] + b, json) == LineTokens(a, json) + LineTokens(b, json)
  {
    var line := DataPrefix + payload;
    assert line[..6] == DataPrefix && line[6..] == payload;
    SkipLine(a, line, b, json);
  }

  /** A line is looked at only if it starts with exactly `data: `; its payload is the
      rest of the line, and a payload other than `[DONE]` yields its non-empty delta
      content. */
  lemma DataLine(payload: string, json: JsonReader)
    requires payload != DoneMarker
    ensures var t := json.delta(payload);
      LineToken(DataPrefix + payload, json) == if t.Some? && t.value != "" then t else None
  {
    var line := DataPrefix + payload;
    assert line[..6] == DataPrefix && line[6..] == payload;
  }

  /** A chunk without a line break is one line, which counts unless it is blank. */
  lemma SingleLineChunk(chunk: string, json: JsonReader)
    requires '\n' !in chunk
    ensures ChunkTokens(chunk, json) == if IsBlank(chunk) then [] else OptionList(LineToken(chunk, json))
  {
    SplitNoSeparator(chunk, '\n');
    assert [chunk][..0] == [];
    if !IsBlank(chunk) {
      LineTokensSingle(chunk, json);
    }
  }

  /** A chunk of one line that does not start with `data: ` yields nothing. */
  lemma QuietChunk(chunk: string, json: JsonReader)
    requires '\n' !in chunk && !StartsWith(chunk, DataPrefix)
    ensures ChunkTokens(chunk, json) == []
  {
    SingleLineChunk(chunk, json);
  }

  lemma OneChunk(c: string, json: JsonReader)
    ensures StreamTokens([c], json) == ChunkTokens(c, json)
  {
    var f := Decoder(json);
    assert [c][..0] == [];
    assert FlatMap([c], f) == FlatMap([], f) + f(c);
    assert f(c) == ChunkTokens(c, json);
  }

  lemma TwoChunks(c1: string, c2: string, json: JsonReader)
    ensures StreamTokens([c1, c2], json) == ChunkTokens(c1, json) + ChunkTokens(c2, json)
  {
    assert [c1, c2] == [c1] + [c2];
    StreamTokensAppend([c1], [c2], json);
    OneChunk(c1, json);
    OneChunk(c2, json);
  }

  /** A frame split inside its `data: ` prefix across two chunks yields no token:
      neither half starts with `data: `. */
  lemma SplitFrameLost(payload: string, k: nat, json: JsonReader)
    requires 0 < k < 6 && '\n' !in payload
    ensures var frame := DataPrefix + payload;
      StreamTokens([frame[..k], frame[k..]], json) == []
  {
    var frame := DataPrefix + payload;
    var first, second := frame[..k], frame[k..];
    assert ChunkTokens(first, json) == [] by {
      assert first == DataPrefix[..k];
      QuietChunk(first, json);
    }
    assert ChunkTokens(second, json) == [] by {
      assert second == DataPrefix[k..] + payload;
      assert '\n' !in second by {
        forall i | 0 <= i < |second| ensures second[i] != '\n' {
          if i >= 6 - k { assert second[i] == payload[i - (6 - k)]; }
        }
      }
      assert second[0] == DataPrefix[k];
      QuietChunk(second, json);
    }
    TwoChunks(first, second, json);
  }

  /** A chunk holding only a `data: [DONE]` frame yields nothing, and the chunks
      after it are still read and decoded. */
  lemma DoneChunkContinues(a: seq<string>, b: seq<string>, json: JsonReader)
    ensures StreamTokens(a + [DataPrefix + DoneMarker] + b, json) == StreamTokens(a, json) + StreamTokens(b, json)
  {
    var done := DataPrefix + DoneMarker;
    assert ChunkTokens(done, json) == [] by {
      assert done == "data: [DONE]";
      assert done[..6] == DataPrefix && done[6..] == DoneMarker;
      SingleLineChunk(done, json);
    }
    StreamTokensAppend(a + [done], b, json);
    StreamTokensAppend(a, [done], json);
    OneChunk(done, json);
    assert StreamTokens(a, json) + [] == StreamTokens(a, json);
  }

  // ---------------------------------------------------------------------------
  // Properties of the whole call

  /** The tokens passed to `onToken`, in order. */
  function TokensOf(events: seq<ChatEvent>): seq<string>
    decreases |events|
  {
    if |events| == 0 then []
    else
      var last := events[|events| - 1];
      TokensOf(events[..|events| - 1]) + (if last.Token? then [last.token] else [])
  }

  /** A settled call: some `onToken` calls, then exactly one `onComplete` or
      `onError` as the last callback, agreeing with how the promise settles. */
  predicate Settled(o: Outcome) {
    && |o.events| > 0
    && (forall i :: 0 <= i < |o.events| - 1 ==> o.events[i].Token?)
    && match o.events[|o.events| - 1]
       case Complete(t) => o.result == Ok(t)
       case Failed(m) => o.result == Err(m)
       case Token(_) => false
  }

  lemma {:induction false} TokensOfTokenEvents(ts: seq<string>)
    ensures TokensOf(TokenEvents(ts)) == ts
    decreases |ts|
  {
    if |ts| > 0 {
      assert TokenEvents(ts)[..|ts| - 1] == TokenEvents(ts[..|ts| - 1]);
      TokensOfTokenEvents(ts[..|ts| - 1]);
      assert ts == ts[..|ts| - 1] + [ts[|ts| - 1]];
    }
  }

  /** The tokens of a trace that ends in its terminal callback. */
  lemma TokensOfSettled(ts: seq<string>, last: ChatEvent)
    requires !last.Token?
    ensures TokensOf(TokenEvents(ts) + [last]) == ts
  {
    var es := TokenEvents(ts) + [last];
    assert es[..|es| - 1] == TokenEvents(ts);
    TokensOfTokenEvents(ts);
  }

  lemma StreamSettles(body: Body, json: JsonReader)
    ensures Settled(StreamOutcome(body, json))
    ensures TokensOf(StreamOutcome(body, json).events) == StreamTokens(body.chunks, json)
  {
    var ts := StreamTokens(body.chunks, json);
    var last := if body.failure.Some? then Failed(body.failure.value) else Complete(Concat(ts));
    assert StreamOutcome(body, json).events == TokenEvents(ts) + [last];
    TokensOfSettled(ts, last);
  }

  lemma OneEventSettles(e: ChatEvent)
    requires !e.Token?
    ensures TokensOf([e]) == []
  {
    assert [e][..0] == [];
  }

  /** Every call settles: tokens, then one `onComplete` or one `onError` as the last
      callback, matching the result; no reported token is empty. */
  lemma CompletionSettles(opts: Options, fetch: HttpRequest -> Response, json: JsonReader)
    ensures Settled(Completion(opts, fetch, json))
    ensures var ts := TokensOf(Completion(opts, fetch, json).events);
      forall i :: 0 <= i < |ts| ==> ts[i] != ""
  {
    var o := Completion(opts, fetch, json);
    var response := fetch(Request(opts));
    if response.Reply? && response.ok && opts.stream.GetOr(DefaultStream) && response.body.Some? {
      StreamSettles(response.body.value, json);
      StreamTokensNonEmpty(response.body.value.chunks, json);
    } else {
      assert |o.events| == 1 && !o.events[0].Token?;
      OneEventSettles(o.events[0]);
    }
  }

  /** The stream branch: the tokens reported are those the decoder finds in the
      chunks, and the text passed to `onComplete` and returned is their
      concatenation; the call fails exactly when reading the body fails. */
  lemma StreamResult(opts: Options, fetch: HttpRequest -> Response, json: JsonReader)
    requires opts.stream != Some(false)
    requires var r := fetch(Request(opts)); r.Reply? && r.ok && r.body.Some?
    ensures var body := fetch(Request(opts)).body.value;
      var o := Completion(opts, fetch, json);
      && TokensOf(o.events) == StreamTokens(body.chunks, json)
      && (o.result.Ok? <==> body.failure.None?)
      && (o.result.Ok? ==> o.result.value == Concat(TokensOf(o.events)))
      && (o.result.Err? ==> o.result.error == body.failure.value)
  {
    StreamSettles(fetch(Request(opts)).body.value, json);
  }

  /** A non-OK response fails with the error document's `error.message`, or with
      `'API request failed'` when that is absent or empty; `onComplete` is not
      called and no token is reported. */
  lemma NonOkFails(opts: Options, fetch: HttpRequest -> Response, json: JsonReader)
    requires var r := fetch(Request(opts)); r.Reply? && !r.ok
    ensures var body := fetch(Request(opts)).body;
      var o := Completion(opts, fetch, json);
      && o.result.Err? && o.events == [Failed(o.result.error)]
      && (forall text, message ::
            BodyText(body) == Ok(text) && json.errorMessage(text) == Ok(message) ==>
            o.result.error == (if message.Some? && message.value != "" then message.value else "API request failed")
            && o.result.error != "")
  {
  }

  /** Without streaming, or without a body stream, the document's
      `choices[0].message.content` (or `''`) is passed to `onComplete` and
      returned, and no token is reported. */
  lemma DocumentResult(opts: Options, fetch: HttpRequest -> Response, json: JsonReader)
    requires var r := fetch(Request(opts)); r.Reply? && r.ok && (opts.stream == Some(false) || r.body.None?)
    ensures var body := fetch(Request(opts)).body;
      var o := Completion(opts, fetch, json);
      && TokensOf(o.events) == []
      && (forall text, content ::
            BodyText(body) == Ok(text) && json.content(text) == Ok(content) ==>
            o.result == Ok(content.GetOr("")) && o.events == [Complete(content.GetOr(""))])
  {
    var o := Completion(opts, fetch, json);
    OneEventSettles(o.events[0]);
  }
}
