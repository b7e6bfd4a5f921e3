/** The two flows of src/__tests__/execution.test.ts, run through the model. The
    test file's `fetch` is a mock that returns nothing, so reading `response.ok`
    throws inside `chatCompletion`: here that is a `fetch` that fails with a
    message. */
module Scenarios {
  import opened Wrappers
  import opened Strings
  import opened Flow
  import opened Graph
  import opened TopoSort
  import opened Template
  import opened ChatClient
  import opened Executor

  // ---------------------------------------------------------------------------
  // Templates of the shape the tests use

  /** A brace-free prefix followed by one `{{id.output}}` placeholder renders as the
      prefix followed by that node's output, `''` when it has none. */
  lemma OutputPlaceholder(prefix: string, id: NodeId, ctx: Context)
    requires '{' !in prefix
    requires |id| > 0 && '.' !in id && '}' !in id && !IsWhitespace(id[0])
    ensures Interpolate(prefix + "{{" + id + ".output}}", ctx) == prefix + (if id in ctx then ctx[id] else "")
  {
    var path := id + ".output";
    assert prefix + "{{" + id + ".output}}" == prefix + "{{" + path + "}}" + "";
    Splice(prefix, path, "", Resolver(ctx));
    ResolveOutput(id, ctx);
    assert Substitute("", Resolver(ctx)) == "";
  }

  /** A template without braces is sent as it is. */
  lemma PlainTemplate(t: string, ctx: Context)
    requires '{' !in t
    ensures Interpolate(t, ctx) == t
  {
    assert t == t + "";
    KeepBraceFree(t, "", Resolver(ctx));
    assert Substitute("", Resolver(ctx)) == "";
  }

  // ---------------------------------------------------------------------------
  // "should interpolate templates correctly"

  const GreetingInput: Node := Node("input-1", Input(Some("Hello World")))
  /** `'User input: {{input-1.output}}'`, written as its prefix and its one
      placeholder. */
  const GreetingTemplate: string := "User input: " + "{{" + "input-1" + ".output}}"
  const GreetingData: PromptData := PromptData("System", GreetingTemplate, "gpt-4o-mini", 0.7, 100, false)
  const GreetingPrompt: Node := Node("prompt-1", Prompt(GreetingData))
  const GreetingNodes: seq<Node> := [GreetingInput, GreetingPrompt]
  const GreetingEdges: seq<Edge> := [Edge("e1", "input-1", "prompt-1")]

  /** The options the prompt node passes to `chatCompletion`: the user message
      carries the input node's value in place of the placeholder. */
  function GreetingOptions(apiKey: string): Options {
    Options(
      apiKey,
      "gpt-4o-mini",
      [ChatMessage(System, "System"), ChatMessage(User, "User input: " + "Hello World")],
      Some(0.7),
      Some(100),
      Some(true))
  }

  /** The graph meets the conditions under which the sort emits every node. */
  lemma GreetingGraph()
    ensures UniqueIds(GreetingNodes) && Closed(GreetingNodes, GreetingEdges) && Acyclic(GreetingEdges)
  {
    assert GreetingInput in GreetingNodes && GreetingPrompt in GreetingNodes;
    RankedAcyclic(GreetingEdges, id => if id == "input-1" then 0 else 1);
  }

  lemma GreetingSources()
    ensures Sources(GreetingNodes, GreetingEdges) == [GreetingInput]
  {
    assert InDegree(GreetingEdges, "input-1") == 0;
    assert InDegree(GreetingEdges, "prompt-1") == 1;
    assert GreetingNodes[..1] == [GreetingInput];
    assert GreetingNodes[..1][..0] == [];
    assert Sources(GreetingNodes[..1], GreetingEdges) == [GreetingInput];
  }

  /** The only order the sort can give: the input, then the prompt. */
  lemma GreetingOrder(sorted: seq<Node>)
    requires IsKahnOrder(GreetingNodes, GreetingEdges, sorted)
    requires multiset(sorted) == multiset(GreetingNodes)
    ensures sorted == GreetingNodes
  {
    GreetingSources();
    assert |sorted| == 2 by {
      assert |multiset(sorted)| == |multiset(GreetingNodes)|;
    }
    assert sorted == [GreetingInput, sorted[1]];
    assert multiset(sorted)[GreetingPrompt] == 1;
  }

  /** An input node followed by a prompt node whose user template is a brace-free
      prefix and `{{<input id>.output}}`: the input completes with its value, and
      the prompt's call is made with the prefix followed by that value as the user
      message. */
  lemma InputFeedsPrompt(input: Node, prompt: Node, prefix: string, edges: seq<Edge>, env: Env)
    requires input.kind.Input? && prompt.kind.Prompt?
    requires var id := input.id; |id| > 0 && '.' !in id && '}' !in id && !IsWhitespace(id[0])
    requires '{' !in prefix && '{' !in prompt.kind.data.systemPrompt
    requires prompt.kind.data.userPrompt == prefix + "{{" + input.id + ".output}}"
    ensures var data := prompt.kind.data;
      var value := input.kind.value.GetOr("");
      var opts := Options(env.apiKey, data.model,
        [ChatMessage(System, data.systemPrompt), ChatMessage(User, prefix + value)],
        Some(data.temperature), Some(data.maxTokens), Some(true));
      Walk([input, prompt], edges, env).events ==
        [NodeStart(input.id), NodeComplete(input.id, value), NodeStart(prompt.id)] +
        ForwardAll(prompt.id, Completion(opts, env.fetch, env.json).events)
  {
    var ns := [input, prompt];
    var data := prompt.kind.data;
    var value := input.kind.value.GetOr("");
    var ctx := map[input.id := value];
    var first := [NodeStart(input.id), NodeComplete(input.id, value)];
    assert Walk(ns[..1], edges, env) == RunState(ctx, first, None) by {
      assert ns[..0] == [];
      WalkStep(ns, 0, edges, env);
      NonPromptNodes(map[], ns[0], edges, env);
    }
    var opts := Options(env.apiKey, data.model,
      [ChatMessage(System, data.systemPrompt), ChatMessage(User, prefix + value)],
      Some(data.temperature), Some(data.maxTokens), Some(true));
    assert PromptOptions(data, ctx, env.apiKey) == opts by {
      OutputPlaceholder(prefix, input.id, ctx);
      PlainTemplate(data.systemPrompt, ctx);
    }
    assert Walk(ns, edges, env).events == first + [NodeStart(prompt.id)] +
        ForwardAll(prompt.id, Completion(PromptOptions(data, ctx, env.apiKey), env.fetch, env.json).events) by {
      WalkStep(ns, 1, edges, env);
      assert ns[..2] == ns;
      PromptStep(Walk(ns[..1], edges, env), prompt, edges, env);
    }
  }

  lemma GreetingShape()
    ensures '{' !in "User input: " && '{' !in "System"
    ensures '.' !in "input-1" && '}' !in "input-1" && !IsWhitespace("input-1"[0])
  {
  }

  lemma GreetingWalk(env: Env)
    ensures Walk(GreetingNodes, GreetingEdges, env).events ==
      [NodeStart("input-1"), NodeComplete("input-1", "Hello World"), NodeStart("prompt-1")] +
      ForwardAll("prompt-1", Completion(GreetingOptions(env.apiKey), env.fetch, env.json).events)
  {
    GreetingShape();
    InputFeedsPrompt(GreetingInput, GreetingPrompt, "User input: ", GreetingEdges, env);
  }

  /** The test's run: `onNodeStart('input-1')`, `onNodeComplete('input-1', 'Hello
      World')`, `onNodeStart('prompt-1')`, then whatever the call with the
      interpolated user message `'User input: Hello World'` reports. */
  method GreetingScenario(env: Env) returns (events: seq<Event>, failure: Option<string>)
    ensures |events| >= 3
    ensures events[..3] == [NodeStart("input-1"), NodeComplete("input-1", "Hello World"), NodeStart("prompt-1")]
    ensures events[3..] == ForwardAll("prompt-1", Completion(GreetingOptions(env.apiKey), env.fetch, env.json).events)
  {
    ghost var order;
    order, events, failure := ExecuteFlow(GreetingNodes, GreetingEdges, env);
    GreetingGraph();
    GreetingOrder(order);
    GreetingWalk(env);
  }

  // ---------------------------------------------------------------------------
  // "should execute nodes in topological order"

  const ChainInput: Node := Node("input-1", Input(Some("Test input")))
  /** `'Process: {{input-1.output}}'`. */
  const ChainTemplate: string := "Process: " + "{{" + "input-1" + ".output}}"
  const ChainData: PromptData := PromptData("You are helpful", ChainTemplate, "gpt-4o-mini", 0.7, 100, false)
  const ChainPrompt: Node := Node("prompt-1", Prompt(ChainData))
  const ChainEnd: Node := Node("end-1", End)
  const ChainNodes: seq<Node> := [ChainInput, ChainPrompt, ChainEnd]
  const ChainEdges: seq<Edge> := [Edge("e1", "input-1", "prompt-1"), Edge("e2", "prompt-1", "end-1")]

  lemma ChainGraph()
    ensures UniqueIds(ChainNodes) && Closed(ChainNodes, ChainEdges) && Acyclic(ChainEdges)
  {
    assert ChainInput in ChainNodes && ChainPrompt in ChainNodes && ChainEnd in ChainNodes;
    RankedAcyclic(ChainEdges, id => if id == "input-1" then 0 else if id == "prompt-1" then 1 else 2);
  }

  lemma ChainSources()
    ensures Sources(ChainNodes, ChainEdges) == [ChainInput]
  {
    var es := ChainEdges;
    assert es[..1] == [es[0]] && es[..1][..0] == [];
    forall k ensures InDegree(es, k) == (if k == "prompt-1" then 1 else 0) + (if k == "end-1" then 1 else 0) {
      assert Pending(es[..1], k, {}) == if k == "prompt-1" then 1 else 0;
    }
    assert ChainNodes[..2] == [ChainInput, ChainPrompt];
    assert ChainNodes[..2][..1] == [ChainInput];
    assert ChainNodes[..2][..1][..0] == [];
    assert Sources(ChainNodes[..1], es) == [ChainInput];
    assert Sources(ChainNodes[..2], es) == [ChainInput];
  }

  /** The only order the sort can give: input, prompt, end. */
  lemma ChainOrder(sorted: seq<Node>)
    requires IsKahnOrder(ChainNodes, ChainEdges, sorted)
    requires multiset(sorted) == multiset(ChainNodes)
    ensures sorted == ChainNodes
  {
    ChainGraph();
    ChainSources();
    assert |sorted| == 3 by {
      assert |multiset(sorted)| == |multiset(ChainNodes)|;
    }
    assert sorted[1] in ChainNodes && sorted[2] in ChainNodes;
    assert sorted[1] != ChainEnd by {
      assert ChainEdges[1].target == "end-1";
    }
    assert sorted == [ChainInput, ChainPrompt, sorted[2]];
    assert multiset(sorted)[ChainEnd] == 1;
  }

  /** The environment of the test: any key and reader, and a network call that
      throws. */
  function FailingEnv(apiKey: string, message: string, json: JsonReader): Env {
    Env(apiKey, _ => FetchFailed(message), json)
  }

  /** When every network call fails, a flow that starts with an input node and a
      prompt node stops at the prompt: the nodes after it are never started. */
  lemma PromptStopsRun(ns: seq<Node>, edges: seq<Edge>, apiKey: string, message: string, json: JsonReader)
    requires |ns| >= 2 && ns[0].kind.Input? && ns[1].kind.Prompt?
    ensures var st := Walk(ns, edges, FailingEnv(apiKey, message, json));
      var value := ns[0].kind.value.GetOr("");
      && st.events == [NodeStart(ns[0].id), NodeComplete(ns[0].id, value),
                       NodeStart(ns[1].id), NodeError(ns[1].id, message)]
      && st.failure == Some(message)
  {
    var env := FailingEnv(apiKey, message, json);
    var value := ns[0].kind.value.GetOr("");
    var ctx := map[ns[0].id := value];
    var first := [NodeStart(ns[0].id), NodeComplete(ns[0].id, value)];
    assert Walk(ns[..1], edges, env) == RunState(ctx, first, None) by {
      assert ns[..0] == [];
      WalkStep(ns, 0, edges, env);
      NonPromptNodes(map[], ns[0], edges, env);
    }
    var st1 := Walk(ns[..1], edges, env);
    assert Walk(ns[..2], edges, env) == Step(st1, ns[1], edges, env) by {
      WalkStep(ns, 1, edges, env);
    }
    assert Step(st1, ns[1], edges, env) ==
           RunState(ctx, first + [NodeStart(ns[1].id), NodeError(ns[1].id, message)], Some(message)) by {
      PromptFails(ctx, ns[1].id, ns[1].kind.data, edges, env);
      assert ns[1] == Node(ns[1].id, Prompt(ns[1].kind.data));
    }
    FailureAbsorbs(ns, 2, edges, env);
  }

  lemma ChainWalk(apiKey: string, message: string, json: JsonReader)
    ensures var st := Walk(ChainNodes, ChainEdges, FailingEnv(apiKey, message, json));
      && st.events == [NodeStart("input-1"), NodeComplete("input-1", "Test input"),
                       NodeStart("prompt-1"), NodeError("prompt-1", message)]
      && st.failure == Some(message)
      && NodeStart("end-1") !in st.events
  {
    PromptStopsRun(ChainNodes, ChainEdges, apiKey, message, json);
  }

  /** The test's run under its mock: the input node completes, the prompt node
      fails, and the run stops there, so `onNodeStart('end-1')`, which the test
      expects, never happens, and the promise rejects. */
  method ChainScenario(apiKey: string, message: string, json: JsonReader)
    returns (events: seq<Event>, failure: Option<string>)
    ensures events == [NodeStart("input-1"), NodeComplete("input-1", "Test input"),
                       NodeStart("prompt-1"), NodeError("prompt-1", message)]
    ensures failure == Some(message)
    ensures NodeStart("end-1") !in events
  {
    ghost var order;
    order, events, failure := ExecuteFlow(ChainNodes, ChainEdges, FailingEnv(apiKey, message, json));
    ChainGraph();
    ChainOrder(order);
    ChainWalk(apiKey, message, json);
  }
}
