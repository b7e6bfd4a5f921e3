# Flow execution engine and chat-completion client

This project models the execution engine of a visual prompt-chaining tool and the
chat-completion client it calls. A flow is a list of nodes with directed edges
between them. Each node is an input, a prompt, an end, or some other kind.

- `topologicalSort` puts the nodes in an order with Kahn's algorithm.
- `executeFlow` runs the nodes one at a time in that order:
  - An input node records its value.
  - A prompt node fills `{{path}}` placeholders in its two prompts from the outputs
    recorded so far (`interpolateTemplate`). It then streams a completion and
    records it.
  - An end node copies the output of its first upstream node.
  - The four callbacks (start, token, complete, error) become a trace of events.
  - The first error ends the run.
- `chatCompletion` builds the HTTP request with its defaults and maps a non-OK
  response to an error. It decodes the server-sent-event stream chunk by chunk, or
  reads one JSON document when streaming is off.

Modules:

- `Wrappers`: Option and Result.
- `Strings`: the JavaScript string operations the source uses: `split`, `trim`,
  `startsWith`, and the concatenation of a list of strings.
- `Flow`: nodes, node kinds and edges, and the node types of `src/types/flow.ts`.
- `Graph`: paths, cycles and acyclicity, with two proof tools that model no
  source line: a ranking criterion for acyclicity (`RankedAcyclic`, used for the
  test flows) and a pigeonhole bound (`DistinctBound`, used to find a cycle).
- `TopoSort`: the sort, as a method over maps and a queue, proved against the
  predicate `IsKahnOrder`. Lemmas state what the sort leaves out and when it
  leaves nothing out.
- `Template`: the placeholder scanner for `/\{\{([^}]+)\}\}/g`, written as a
  recursive function. Around it:
  - the path walk over the context;
  - `Interpolate` as the reference definition;
  - the method `InterpolateTemplate` with its loops.
- `ChatClient`: the request, the response as data, the stream decoder as methods
  with loops, and the reference function `Completion`.
- `Executor`: `ExecuteFlow` as a loop over the sorted nodes. It is proved equal to
  the recursive run `Walk`. Lemmas are proved about `Walk`.
- `Scenarios`: the two flows of `src/__tests__/execution.test.ts`.

The network is a parameter: `fetch` is a function from the request to a
`Response` value. The JSON reads are three uninterpreted functions in a
`JsonReader`:

- the delta of one stream payload;
- the message content of the document;
- the error message of the error document.

Four facts about the code shape the request and the stream decoder:

- The request body always carries `max_tokens` (src/lib/chatgpt.ts:58-64).
- The request body never carries `response_format` (src/lib/chatgpt.ts:58-64).
- A prompt node passes its `jsonMode` along (src/lib/execution.ts:95), but
  `chatCompletion` never reads it.
- A `data: [DONE]` line is skipped with `continue` (src/lib/chatgpt.ts:87); it does
  not end the stream.

The model also shows something about the first test flow (input -> prompt -> end).
When the service fails there, the run stops at the prompt node and the end node is
never started (`Scenarios.ChainScenario`). The test setup replaces the global
`fetch` by a mock that returns `undefined`, so the prompt node's call throws.
Under that setup, the test's expectation that `end-1` is started cannot be met.

## Model

| member | source | states |
|---|---|---|
| ChatClient.Request | src/lib/chatgpt.ts:52-64 | The request is a POST to the completions URL with the JSON content type and the bearer key. Its body has exactly the keys model, messages, temperature, max_tokens and stream, and never response_format. |
| ChatClient.RequestDefaults | src/lib/chatgpt.ts:43-45 | When the options leave them out, the body falls back to temperature 0.7, max_tokens 2000 and stream true. The given model is sent, and each message in order. |
| ChatClient.NonBlankKeeps | src/lib/chatgpt.ts:82 | A line is kept iff it occurs in the chunk's lines and is not blank. No blank line is kept and no non-blank line is lost. |
| ChatClient.NonBlankSingle | src/lib/chatgpt.ts:82 | A single line is kept iff it is not blank. |
| ChatClient.NonBlankAppend | src/lib/chatgpt.ts:82 | The filter of a concatenation is the filter of each part, in order. With `NonBlankSingle`, this pins the result to exactly the non-blank lines in their original order. |
| ChatClient.LineToken | src/lib/chatgpt.ts:85-95 | A line yields a token only when it starts with `data: ` and its payload is not `[DONE]`. A token is never empty. |
| ChatClient.LineTokens | src/lib/chatgpt.ts:84-100 | No token taken from a chunk's lines is empty. |
| ChatClient.DataLine | src/lib/chatgpt.ts:86-95 | A data line whose payload is not `[DONE]` yields exactly the payload's non-empty delta. |
| ChatClient.DoneContinues | src/lib/chatgpt.ts:87 | A `[DONE]` line contributes nothing. The lines after it are still decoded. |
| ChatClient.DoneChunkContinues | src/lib/chatgpt.ts:77-87 | A `[DONE]` chunk in the middle of the stream does not end it. The tokens are those of the chunks before it followed by those after it. |
| ChatClient.UnparseableSkipped | src/lib/chatgpt.ts:89-98 | A payload that does not parse, or has no delta content, contributes nothing. The lines around it are decoded as if it were absent. |
| ChatClient.SkipLine | src/lib/chatgpt.ts:84-100 | Any line that yields no token can be removed from the line list without changing the tokens. |
| ChatClient.QuietChunk | src/lib/chatgpt.ts:85 | A single-line chunk that does not start with `data: ` yields no token. |
| ChatClient.SingleLineChunk | src/lib/chatgpt.ts:81-86 | A chunk without a newline is one line: a blank one yields nothing, and any other yields that line's token. |
| ChatClient.LineTokensAppend | src/lib/chatgpt.ts:84-100 | Decoding lines distributes over concatenation of line lists, so tokens keep arrival order. |
| ChatClient.StreamTokensAppend | src/lib/chatgpt.ts:77-101 | The tokens of `c1 ++ c2` are the tokens of `c1` followed by the tokens of `c2`. |
| ChatClient.TwoChunks | src/lib/chatgpt.ts:81-82 | The tokens of two chunks are those of each chunk decoded on its own, in order. |
| ChatClient.SplitFrameLost | src/lib/chatgpt.ts:81-86 | A data frame cut inside its `data: ` prefix and delivered in two chunks yields no token. |
| ChatClient.StreamTokensNonEmpty | src/lib/chatgpt.ts:91-95 | No token of the whole stream is empty. |
| ChatClient.DecodeChunk | src/lib/chatgpt.ts:81-100 | One chunk extends the callbacks by its tokens and the accumulated text by their concatenation. |
| ChatClient.DecodeLines | src/lib/chatgpt.ts:84-100 | The inner loop, with the line checks written as in the source, fires `onToken` for exactly the lines' tokens and appends their concatenation to the accumulated text. |
| ChatClient.ReadStream | src/lib/chatgpt.ts:75-101 | The read loop fires `onToken` for exactly the stream's tokens. The accumulated response is their concatenation. |
| ChatClient.ChatCompletion | src/lib/chatgpt.ts:38-116 | The method's callbacks and its resolved or rejected result are those of the reference function `Completion`, on every response. |
| ChatClient.StreamSettles | src/lib/chatgpt.ts:72-104 | A stream outcome is settled: tokens, then one final complete or error event. The tokens are the stream's tokens. |
| ChatClient.CompletionSettles | src/lib/chatgpt.ts:38-116 | Every call ends with exactly one complete or failed callback after its tokens. No token callback carries the empty string. |
| ChatClient.StreamResult | src/lib/chatgpt.ts:72-104 | On an OK streamed response with a body, the call resolves iff the body is read to the end. It resolves with the concatenation of the tokens passed to `onToken`. When the read fails, it rejects with the reader's message. |
| ChatClient.NonOkFails | src/lib/chatgpt.ts:67-115 | A non-OK response rejects, and `onError` is its only callback, so `onComplete` is not called. The message is the error document's `error.message`, or `API request failed` when that is absent or empty. |
| ChatClient.DocumentResult | src/lib/chatgpt.ts:105-110 | With streaming off, or with no body, no token is fired. The call completes with the document's `choices[0].message.content`, or `''`. |
| ChatClient.TokensOfSettled | src/lib/chatgpt.ts:93-104 | The final event adds no token, so the tokens of a settled outcome are exactly those fired. |
| ChatClient.TokensOfTokenEvents | src/lib/chatgpt.ts:93-94 | Reading the tokens back off the `onToken` callbacks gives the decoded tokens, one call per token, in order. |
| TopoSort.Sources | src/lib/execution.ts:23-28 | A node is a source iff it is listed and no edge points at it. With unique ids, the sources have unique ids too. |
| TopoSort.Find | src/lib/execution.ts:39 | `nodes.find` returns the first listed node with the id, or nothing iff no node has it. |
| TopoSort.InitMaps | src/lib/execution.ts:13-16 | Every listed id starts with an empty adjacency list and in-degree zero. |
| TopoSort.AddEdges | src/lib/execution.ts:18-21 | Adjacency lists exist only for listed ids and hold each source's targets in edge order. In-degrees count incoming edges, also for unlisted targets. |
| TopoSort.SeedQueue | src/lib/execution.ts:23-28 | The queue is seeded with exactly `Sources`. |
| TopoSort.ReleaseTargets | src/lib/execution.ts:35-42 | Decrementing a popped node's targets keeps the loop invariant and does not raise the termination measure. |
| TopoSort.TopologicalSort | src/lib/execution.ts:9-46 | Only input nodes are emitted, starting with the in-degree-zero nodes in input order. With unique ids, each node is emitted at most once. Every edge's source comes before its emitted target. A node is left out only when an incoming edge comes from an unemitted id. On a closed acyclic graph with unique ids, the output is a permutation of the input. |
| TopoSort.EmittedUpstream | src/lib/execution.ts:31-43 | Whenever a path ends at an emitted node, its first node was emitted no later. |
| TopoSort.CycleNotBefore | src/lib/execution.ts:35-41 | No node on a cycle is ever emitted. |
| TopoSort.Omissions | src/lib/execution.ts:18-45 | These are dropped silently: nodes on a cycle, nodes downstream of a cycle, and targets of edges whose source is not listed. |
| TopoSort.OmittedCycle | src/lib/execution.ts:31-45 | On a closed graph, take a listed node that is not emitted. The lemma constructs a cycle all of whose nodes are listed and not emitted, and a path from that cycle to the node. |
| TopoSort.AllEmitted | src/lib/execution.ts:9-46 | On a closed acyclic graph with unique ids, every node is emitted exactly once. |
| Flow.UniqueIdsSame | src/lib/execution.ts:39 | In a list with unique ids, a node is determined by its id. |
| Strings.Split | src/lib/execution.ts:50 | `split('.')` yields at least one part, and no part contains the separator. |
| Strings.JoinSplit | src/lib/execution.ts:50 | Joining the parts of a split with the separator gives back the string. |
| Strings.SplitJoin | src/lib/execution.ts:50 | Splitting a join of separator-free parts gives back the parts. |
| Strings.Trim | src/lib/execution.ts:50 | The result starts and ends with non-whitespace. It is empty iff `s` is all whitespace. A string without leading or trailing whitespace is unchanged. |
| Strings.TrimSlice | src/lib/execution.ts:50 | `trim` returns one contiguous piece of `s`, with only whitespace before and after it. |
| Strings.ConcatAppend | src/lib/chatgpt.ts:93 | Accumulating tokens distributes over concatenation of token lists. |
| Template.RunEnd | src/lib/execution.ts:49 | `[^}]+` stops at the first `}` or at the end of the text. |
| Template.Scan | src/lib/execution.ts:49 | Every placeholder the scanner finds has a non-empty path without `}`. |
| Template.UnparseScan | src/lib/execution.ts:49 | Scanning loses nothing: the pieces spell out the template. |
| Template.ScanFinds | src/lib/execution.ts:49 | The scanner finds a placeholder iff the regex matches at some position of the template. |
| Template.ScanBraceFree | src/lib/execution.ts:49 | Text without `{` is kept as literal text ahead of what follows it. |
| Template.PlaceholderScan | src/lib/execution.ts:49 | `{{path}}` with a non-empty `}`-free path is one placeholder. |
| Template.NatToStringParses | src/lib/execution.ts:53 | The canonical decimal of a position parses back to it. |
| Template.UndefinedAbsorbs | src/lib/execution.ts:52-54 | Once the walk reaches `undefined`, it stays `undefined` (`?.`). |
| Template.WalkAppend | src/lib/execution.ts:52-54 | Walking a path in two parts is walking the whole path. |
| Template.MissingSegment | src/lib/execution.ts:50-55 | If any prefix of the path is missing from the context, the placeholder becomes `''`. |
| Template.WalkIdOutput | src/lib/execution.ts:53-77 | The path `id.output` reaches the recorded output of `id`, or `undefined` when `id` has none. |
| Template.ResolveOutput | src/lib/execution.ts:50-55 | `{{id.output}}` becomes `id`'s output, or `''` when `id` has none. |
| Template.RenderAppend | src/lib/execution.ts:49 | Rendering distributes over concatenation of pieces. |
| Template.RenderWithoutHoles | src/lib/execution.ts:49 | Pieces without a placeholder render as they were written. |
| Template.NoMatchUnchanged | src/lib/execution.ts:49 | A template where the regex matches nowhere is returned unchanged. |
| Template.KeepBraceFree | src/lib/execution.ts:49 | Text before any `{` is never altered. |
| Template.ReplaceFirst | src/lib/execution.ts:49 | A leading placeholder is replaced by its resolved value. The rest is substituted independently. |
| Template.KeepFirst | src/lib/execution.ts:49 | A character where no match begins is kept. |
| Template.EmptyBracesKept | src/lib/execution.ts:49 | `{{}}` is not a placeholder and stays literal. |
| Template.ResolvePlaceholder | src/lib/execution.ts:50-55 | The walk loop gives the value the reference resolution defines. |
| Template.RenderPieces | src/lib/execution.ts:49-56 | The replacement loop builds the reference rendering of the scanned pieces. |
| Template.InterpolateTemplate | src/lib/execution.ts:48-57 | The method returns the reference interpolation `Interpolate` of the template against the context. |
| Executor.Incoming | src/lib/execution.ts:112 | The filter keeps only edges of the list that point at the node. |
| Executor.IncomingFirst | src/lib/execution.ts:112-114 | An incoming edge exists iff some edge targets the node. The first one kept is the earliest such edge in the list. |
| Executor.ForwardTokens | src/lib/execution.ts:97-100 | The node's token callbacks carry exactly the client's tokens, in arrival order. |
| Executor.ForwardComplete | src/lib/execution.ts:101-104 | A settled call completes the node with `out` iff the call resolved with `out`. |
| Executor.RunPrompt | src/lib/execution.ts:80-108 | The prompt step forwards exactly the client's callbacks and result for the interpolated options. |
| Executor.RunNode | src/lib/execution.ts:73-124 | Each loop body has the effect the reference `Dispatch` gives for the node's type. |
| Executor.ExecuteFlow | src/lib/execution.ts:59-126 | The run uses an order with every `TopologicalSort` guarantee. Its callbacks and first error are those of the reference run `Walk` over that order. |
| Executor.WalkStep | src/lib/execution.ts:71-125 | While no node has failed, each further node adds one step. |
| Executor.FailureAbsorbs | src/lib/execution.ts:120-124 | Once a node has failed, the later nodes change nothing. |
| Executor.StartsInOrder | src/lib/execution.ts:71-73 | `onNodeStart` fires for a prefix of the sorted list, in order. Without a failure that prefix is the whole list. With a failure, the last event is the error of the last node started, carrying the failure's message. |
| Executor.CallbacksNested | src/lib/execution.ts:71-125 | Every callback after a start belongs to that node, so each node's callbacks finish before the next node starts. |
| Executor.ErrorEndsRun | src/lib/execution.ts:120-124 | An error callback can only be the last event. A run that does not fail has no error callback at all. |
| Executor.NonPromptNodes | src/lib/execution.ts:75-119 | An input node records its value, or `''`, and completes with it. An end node copies the recorded output of its first incoming edge's source, or `''`. With no incoming edge it fires nothing. Other kinds fire only the start. None of these fails. |
| Executor.PromptRequest | src/lib/execution.ts:81-96 | The prompt node interpolates its system and user prompts against the context. It sends them with its model, temperature and token limit, streaming on. |
| Executor.JsonModeIgnored | src/lib/execution.ts:95 | A prompt node's `jsonMode` does not affect its outcome. |
| Executor.PromptStream | src/lib/execution.ts:86-108 | On an OK stream, the node's tokens are the stream's tokens. The node fails iff reading fails. Success records and completes with the concatenated text. Failure reports the reader's message and leaves the context unchanged. |
| Executor.PromptFails | src/lib/execution.ts:86-124 | When the fetch rejects or the response is not OK, the node fires exactly one error and records nothing, and the run fails. A rejected fetch reports its own message. |
| Executor.EventIds | src/lib/execution.ts:71-125 | Every callback names a node of the sorted list. |
| Executor.ContextRecordsOutputs | src/lib/execution.ts:77-116 | With unique ids, the context holds an output exactly for the nodes that completed, and it is the output they completed with. |
| Executor.ContextKeys | src/lib/execution.ts:69-119 | The context only has entries for nodes of the list. |
| Scenarios.OutputPlaceholder | src/__tests__/execution.test.ts:80-105 | `prefix{{id.output}}` becomes the prefix followed by `id`'s output, or by `''`. |
| Scenarios.PlainTemplate | src/lib/execution.ts:49 | A template without `{` is returned unchanged. |
| Scenarios.GreetingOrder | src/__tests__/execution.test.ts:66-91 | Any order with the sort's guarantees for the second test flow is input then prompt. |
| Scenarios.InputFeedsPrompt | src/lib/execution.ts:75-96 | An input node followed by a prompt that reads `{{input.output}}` sends the prompt with the input's value substituted. |
| Scenarios.GreetingWalk | src/__tests__/execution.test.ts:65-106 | The second test flow starts and completes `input-1` with `Hello World`. It then starts `prompt-1` with the user message `User input: Hello World`. |
| Scenarios.GreetingScenario | src/__tests__/execution.test.ts:65-106 | Running the second test flow fires `onNodeComplete('input-1', 'Hello World')`. The prompt's callbacks follow, for any service. |
| Scenarios.ChainOrder | src/__tests__/execution.test.ts:7-39 | Any order with the sort's guarantees for the first test flow is input, prompt, end. |
| Scenarios.PromptStopsRun | src/lib/execution.ts:120-124 | When the service is unreachable, a flow beginning with an input and a prompt stops at the prompt with its error. |
| Scenarios.ChainScenario | src/__tests__/execution.test.ts:6-64 | With an unreachable service, the first test flow never starts `end-1`. |

## Left out

- `testConnection` (src/lib/chatgpt.ts:25-36) is left out: it is one network call whose only result is the `ok` flag.
- `CHATGPT_MODELS` is a constant table (`ChatClient.ChatModels`) with nothing to prove about it.
- The 100 ms pause after a prompt node is left out: it changes no state. The async machinery is also left out; the run is modelled as sequential.
- Fetch is a pure function of the request, so two identical requests in one run get identical responses. The real service can answer them differently. No property stated here depends on this.
- Fetch, the body reader and `TextDecoder` are not modelled. The response is data: a rejection message, or the `ok` flag with an optional body, which holds the decoded chunks and an optional read failure. A multi-byte character split across two chunks is not modelled.
- `JSON.parse`, `JSON.stringify` and the field accesses on parsed documents are uninterpreted functions in `JsonReader`. The request body is a JSON value, not its text.
- Temperature is a `real` that is passed through. Floating-point representation is not modelled.
- Callbacks are taken not to throw, and `onToken`, `onComplete` and `onError` are always supplied. Only callbacks that record events are modelled.
- A thrown value that is not an `Error` becomes `Unknown error` in the source. The model has only messages, so every failure already carries its message.
- The prompt node's `fullOutput` accumulator is written but never read in the source, so it is not modelled.
- Template.Resolve: the context holds string outputs only. Beyond an id and `output`, the walk covers only a string's `length` and its indices. It counts code points, not UTF-16 units. Inherited prototype properties and `String()` of non-string values are not modelled.
- Flow: node data are the fields the engine reads. Positions, labels and display modes are not modelled.
- TopoSort.TopologicalSort: the contract fixes only the in-degree-zero nodes in input order as the prefix of the output. It does not state that the rest follows the FIFO order. With repeated ids, only the input-only and prefix guarantees are stated.
- `Scenarios.GreetingScenario` and `Scenarios.ChainScenario` state the runs for the test flows. The mocking library and its call assertions are not modelled.
