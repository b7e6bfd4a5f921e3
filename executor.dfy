/** `executeFlow` of src/lib/execution.ts: the nodes run one after another in the
    order `topologicalSort` gives, each adding its output to the context that later
    templates read. The four callbacks become a trace of `Event`s; the first error
    is reported for its node and ends the run.

    A prompt node's model call is `chatCompletion` with the network and the JSON
    reader passed in as an `Env`. The 100 ms pause after each prompt node is left
    out: it changes no state. */
module Executor {
  import opened Wrappers
  import opened Strings
  import opened Flow
  import opened Graph
  import opened TopoSort
  import opened Template
  import opened ChatClient

  /** One callback invocation: `onNodeStart`, `onNodeToken`, `onNodeComplete` or
      `onNodeError`. */
  datatype Event =
    | NodeStart(id: NodeId)
    | NodeToken(id: NodeId, token: string)
    | NodeComplete(id: NodeId, output: string)
    | NodeError(id: NodeId, message: string)

  /** What the run talks to: the API key and the model service. */
  datatype Env = Env(apiKey: string, fetch: HttpRequest -> Response, json: JsonReader)

  /** The run after some nodes: the context, the callbacks so far, and the message
      of the error that ended it, if one did. */
  datatype RunState = RunState(context: Context, events: seq<Event>, failure: Option<string>)

  const Initial: RunState := RunState(map[], [], None)

  /** `edges.filter(e => e.target === id)`. */
  function Incoming(edges: seq<Edge>, id: NodeId): (r: seq<Edge>)
    ensures forall e :: e in r ==> e in edges && e.target == id
    decreases |edges|
  {
    if |edges| == 0 then []
    else
      var rest := Incoming(edges[1..], id);
      if edges[0].target == id then [edges[0]] + rest else rest
  }

  /** The options of a prompt node's `chatCompletion` call: both prompts
      interpolated against the context, the node's model settings, streaming on.
      `jsonMode` is not among them. */
  function PromptOptions(data: PromptData, ctx: Context, apiKey: string): Options {
    Options(
      apiKey,
      data.model,
      [ChatMessage(System, Interpolate(data.systemPrompt, ctx)), ChatMessage(User, Interpolate(data.userPrompt, ctx))],
      Some(data.temperature),
      Some(data.maxTokens),
      Some(true))
  }

  /** The callbacks of `chatCompletion` as the prompt node forwards them: a token to
      `onNodeToken`, the completion to `onNodeComplete`, and the error, which the
      `onError` callback rethrows, to `onNodeError` in the catch block. */
  function Forward(id: NodeId, e: ChatEvent): Event {
    match e
    case Token(t) => NodeToken(id, t)
    case Complete(t) => NodeComplete(id, t)
    case Failed(m) => NodeError(id, m)
  }

  function ForwardAll(id: NodeId, es: seq<ChatEvent>): seq<Event> {
    seq(|es|, i requires 0 <= i < |es| => Forward(id, es[i]))
  }

  /** What a node's dispatch leaves: the context, the callbacks it fires after
      `onNodeStart`, and the message of the error it throws, if any. */
  datatype NodeResult = NodeResult(context: Context, fired: seq<Event>, failure: Option<string>)

  /** A prompt node's part after the call: the callbacks forwarded, and the text
      stored as its output when the call resolves, or the error when it rejects. */
  function PromptResult(ctx: Context, id: NodeId, o: Outcome): NodeResult {
    if o.result.Ok? then NodeResult(ctx[id := o.result.value], ForwardAll(id, o.events), None)
    else NodeResult(ctx, ForwardAll(id, o.events), Some(o.result.error))
  }

  /** The dispatch on the node's type, against the context built so far. */
  function Dispatch(ctx: Context, node: Node, edges: seq<Edge>, env: Env): NodeResult {
    var id := node.id;
    match node.kind
    case Input(v) =>
      var value := v.GetOr("");
      NodeResult(ctx[id := value], [NodeComplete(id, value)], None)
    case Prompt(data) =>
      PromptResult(ctx, id, Completion(PromptOptions(data, ctx, env.apiKey), env.fetch, env.json))
    case End =>
      var incoming := Incoming(edges, id);
      if |incoming| == 0 then NodeResult(ctx, [], None)
      else
        var source := incoming[0].source;
        var output := if source in ctx then ctx[source] else "";
        NodeResult(ctx[id := output], [NodeComplete(id, output)], None)
    case Other(_) =>
      NodeResult(ctx, [], None)
  }

  /** The body of the loop for one node: `onNodeStart`, then the dispatch. */
  function Step(st: RunState, node: Node, edges: seq<Edge>, env: Env): RunState {
    var r := Dispatch(st.context, node, edges, env);
    RunState(r.context, st.events + [NodeStart(node.id)] + r.fired, r.failure)
  }

  /** The run over a list of nodes: node after node until one fails. */
  function Walk(ns: seq<Node>, edges: seq<Edge>, env: Env): RunState
    decreases |ns|
  {
    if |ns| == 0 then Initial
    else
      var st := Walk(ns[..|ns| - 1], edges, env);
      if st.failure.Some? then st else Step(st, ns[|ns| - 1], edges, env)
  }

  // ---------------------------------------------------------------------------
  // The source's form

  lemma WalkStep(ns: seq<Node>, i: nat, edges: seq<Edge>, env: Env)
    requires i < |ns| && Walk(ns[..i], edges, env).failure.None?
    ensures Walk(ns[..i + 1], edges, env) == Step(Walk(ns[..i], edges, env), ns[i], edges, env)
  {
    assert ns[..i + 1][..i] == ns[..i];
  }

  /** Once a node has failed, the nodes after it change nothing: none is started. */
  lemma {:induction false} FailureAbsorbs(ns: seq<Node>, k: nat, edges: seq<Edge>, env: Env)
    requires k <= |ns| && Walk(ns[..k], edges, env).failure.Some?
    ensures Walk(ns, edges, env) == Walk(ns[..k], edges, env)
    decreases |ns| - k
  {
    if k < |ns| {
      assert ns[..k + 1][..k] == ns[..k];
      FailureAbsorbs(ns, k + 1, edges, env);
    } else {
      assert ns[..k] == ns;
    }
  }

  /** The prompt node's call: both templates, then `chatCompletion`, whose
      callbacks are forwarded as they come. */
  method RunPrompt(id: NodeId, data: PromptData, ctx: Context, env: Env)
    returns (forwarded: seq<Event>, result: Result<string, string>)
    ensures var o := Completion(PromptOptions(data, ctx, env.apiKey), env.fetch, env.json);
      forwarded == ForwardAll(id, o.events) && result == o.result
  {
    var systemPrompt := InterpolateTemplate(data.systemPrompt, ctx);
    var userPrompt := InterpolateTemplate(data.userPrompt, ctx);
    var opts := Options(
      env.apiKey,
      data.model,
      [ChatMessage(System, systemPrompt), ChatMessage(User, userPrompt)],
      Some(data.temperature),
      Some(data.maxTokens),
      Some(true));
    var chat;
    chat, result := ChatCompletion(opts, env.fetch, env.json);
    forwarded := ForwardAll(id, chat);
  }

  /** The dispatch inside the `try` block, after `onNodeStart`. */
  method RunNode(context: Context, node: Node, edges: seq<Edge>, env: Env)
    returns (ctx: Context, fired: seq<Event>, failure: Option<string>)
    ensures NodeResult(ctx, fired, failure) == Dispatch(context, node, edges, env)
  {
    ctx, fired, failure := context, [], None;
    match node.kind {
      case Input(v) =>
        var value := v.GetOr("");
        ctx := ctx[node.id := value];
        fired := [NodeComplete(node.id, value)];
      case Prompt(data) =>
        var result;
        fired, result := RunPrompt(node.id, data, context, env);
        if result.Err? {
          failure := Some(result.error);
        } else {
          ctx := ctx[node.id := result.value];
        }
      case End =>
        var incoming := Incoming(edges, node.id);
        if |incoming| > 0 {
          var sourceId := incoming[0].source;
          var output := if sourceId in context then context[sourceId] else "";
          ctx := ctx[node.id := output];
          fired := [NodeComplete(node.id, output)];
        }
      case Other(_) =>
    }
  }

  /** `executeFlow`: sorts the nodes, then runs them in that order with a context
      that starts empty. It returns the trace of callbacks and, when the run was
      aborted, the message of the error it rethrows (after `onNodeError` for the
      failing node). `order` is the sorted list. */
  method ExecuteFlow(nodes: seq<Node>, edges: seq<Edge>, env: Env)
    returns (ghost order: seq<Node>, events: seq<Event>, failure: Option<string>)
    ensures IsKahnOrder(nodes, edges, order)
    ensures UniqueIds(nodes) && Closed(nodes, edges) && Acyclic(edges) ==> multiset(order) == multiset(nodes)
    ensures events == Walk(order, edges, env).events
    ensures failure == Walk(order, edges, env).failure
  {
    var sorted := TopologicalSort(nodes, edges);
    order := sorted;
    var context: Context := map[];
    events, failure := [], None;
    for i := 0 to |sorted|
      invariant RunState(context, events, failure) == Walk(sorted[..i], edges, env)
      invariant failure.None?
    {
      WalkStep(sorted, i, edges, env);
      var node := sorted[i];
      events := events + [NodeStart(node.id)];
      var fired;
      context, fired, failure := RunNode(context, node, edges, env);
      events := events + fired;
      if failure.Some? {
        FailureAbsorbs(sorted, i + 1, edges, env);
        return;
      }
    }
    assert sorted[..|sorted|] == sorted;
  }

  // ---------------------------------------------------------------------------
  // One node's callbacks

  /** The ids passed to `onNodeStart`, in order. */
  function Starts(es: seq<Event>): seq<NodeId>
    decreases |es|
  {
    if |es| == 0 then []
    else
      var last := es[|es| - 1];
      Starts(es[..|es| - 1]) + (if last.NodeStart? then [last.id] else [])
  }

  /** The id of the most recent `onNodeStart` in `es`. */
  function LastStart(es: seq<Event>): Option<NodeId>
    decreases |es|
  {
    if |es| == 0 then None
    else if es[|es| - 1].NodeStart? then Some(es[|es| - 1].id)
    else LastStart(es[..|es| - 1])
  }

  /** The callbacks a node fires after its `onNodeStart`: all for that node, none a
      start, and an `onNodeError` only as the last one, exactly when the node fails. */
  ghost predicate NodeBlock(tail: seq<Event>, id: NodeId, failure: Option<string>) {
    && (forall i :: 0 <= i < |tail| ==> !tail[i].NodeStart? && tail[i].id == id)
    && (forall i :: 0 <= i < |tail| - 1 ==> !tail[i].NodeError?)
    && (failure.None? ==> forall i :: 0 <= i < |tail| ==> !tail[i].NodeError?)
    && (failure.Some? ==> |tail| > 0 && tail[|tail| - 1] == NodeError(id, failure.value))
  }

  lemma PromptBlock(id: NodeId, o: Outcome)
    requires Settled(o)
    ensures NodeBlock(ForwardAll(id, o.events), id, if o.result.Ok? then None else Some(o.result.error))
  {
  }

  /** A node's own callbacks form a block: none is a start, all carry its id, and an
      error comes last, exactly when the node fails. */
  lemma DispatchBlock(ctx: Context, node: Node, edges: seq<Edge>, env: Env)
    ensures var r := Dispatch(ctx, node, edges, env);
      NodeBlock(r.fired, node.id, r.failure)
  {
    if node.kind.Prompt? {
      var opts := PromptOptions(node.kind.data, ctx, env.apiKey);
      CompletionSettles(opts, env.fetch, env.json);
      PromptBlock(node.id, Completion(opts, env.fetch, env.json));
    }
  }

  /** One node's step: its start, then its own callbacks. */
  lemma StepBlock(st: RunState, node: Node, edges: seq<Edge>, env: Env) returns (tail: seq<Event>)
    ensures var s := Step(st, node, edges, env);
      s.events == st.events + [NodeStart(node.id)] + tail && NodeBlock(tail, node.id, s.failure)
  {
    tail := Dispatch(st.context, node, edges, env).fired;
    DispatchBlock(st.context, node, edges, env);
  }

  lemma {:induction false} StartsAppend(es: seq<Event>, tail: seq<Event>)
    requires forall i :: 0 <= i < |tail| ==> !tail[i].NodeStart?
    ensures Starts(es + tail) == Starts(es)
    ensures |tail| > 0 ==> LastStart(es + tail) == LastStart(es)
    decreases |tail|
  {
    if |tail| == 0 {
      assert es + tail == es;
    } else {
      var init := tail[..|tail| - 1];
      assert (es + tail)[..|es + tail| - 1] == es + init;
      StartsAppend(es, init);
      if |init| == 0 {
        assert es + init == es;
      }
    }
  }

  lemma StartsStart(es: seq<Event>, id: NodeId)
    ensures Starts(es + [NodeStart(id)]) == Starts(es) + [id]
    ensures LastStart(es + [NodeStart(id)]) == Some(id)
  {
    assert (es + [NodeStart(id)])[..|es|] == es;
  }

  /** The starts of a trace grown by one node's block. */
  lemma StartsExtend(es: seq<Event>, id: NodeId, tail: seq<Event>)
    requires forall i :: 0 <= i < |tail| ==> !tail[i].NodeStart?
    ensures Starts(es + [NodeStart(id)] + tail) == Starts(es) + [id]
  {
    StartsStart(es, id);
    StartsAppend(es + [NodeStart(id)], tail);
  }

  /** Every callback carries the id of the most recent start. */
  ghost predicate Nested(es: seq<Event>) {
    forall j :: 0 <= j < |es| ==> LastStart(es[..j + 1]) == Some(es[j].id)
  }

  lemma NestedExtend(es: seq<Event>, id: NodeId, tail: seq<Event>)
    requires Nested(es)
    requires forall i :: 0 <= i < |tail| ==> !tail[i].NodeStart? && tail[i].id == id
    ensures Nested(es + [NodeStart(id)] + tail)
  {
    var started := es + [NodeStart(id)];
    var all := started + tail;
    forall j | 0 <= j < |all| ensures LastStart(all[..j + 1]) == Some(all[j].id) {
      if j < |es| {
        assert all[..j + 1] == es[..j + 1];
      } else if j == |es| {
        assert all[..j + 1] == started;
        StartsStart(es, id);
      } else {
        var part := tail[..j - |es|];
        assert all[..j + 1] == started + part;
        StartsAppend(started, part);
        StartsStart(es, id);
        assert all[j] == tail[j - |es| - 1];
      }
    }
  }

  // ---------------------------------------------------------------------------
  // Properties of the run

  /** The starts of a trace are the ids of a prefix of `ns`: all of them when the
      run completes, and up to the failing node, whose error is the last event,
      when it aborts. */
  ghost predicate StartsFollow(ns: seq<Node>, events: seq<Event>, failure: Option<string>) {
    var starts := Starts(events);
    && |starts| <= |ns| && starts == Ids(ns[..|starts|])
    && (failure.None? ==> |starts| == |ns|)
    && (failure.Some? ==>
          |starts| > 0 && |events| > 0 &&
          events[|events| - 1] == NodeError(ns[|starts| - 1].id, failure.value))
  }

  lemma StartsFollowStep(init: seq<Node>, node: Node, events: seq<Event>, tail: seq<Event>,
                         failure: Option<string>)
    requires StartsFollow(init, events, None)
    requires NodeBlock(tail, node.id, failure)
    ensures StartsFollow(init + [node], events + [NodeStart(node.id)] + tail, failure)
  {
    var ns := init + [node];
    var all := events + [NodeStart(node.id)] + tail;
    StartsExtend(events, node.id, tail);
    assert ns[..|init|] == init;
    assert ns[..|init| + 1] == ns;
    assert Ids(init + [node]) == Ids(init) + [node.id];
    if failure.Some? {
      assert all[|all| - 1] == tail[|tail| - 1];
    }
  }

  lemma StartsFollowKeep(init: seq<Node>, node: Node, events: seq<Event>, failure: Option<string>)
    requires StartsFollow(init, events, failure) && failure.Some?
    ensures StartsFollow(init + [node], events, failure)
  {
    var k := |Starts(events)|;
    assert (init + [node])[..k] == init[..k];
  }

  /** `onNodeStart` is called for the sorted nodes in order, one call each: for all
      of them when the run completes, and up to the failing node, whose
      `onNodeError` is the last callback, when it aborts. */
  lemma {:induction false} StartsInOrder(ns: seq<Node>, edges: seq<Edge>, env: Env)
    ensures var st := Walk(ns, edges, env); StartsFollow(ns, st.events, st.failure)
    decreases |ns|
  {
    if |ns| > 0 {
      var init := ns[..|ns| - 1];
      var node := ns[|ns| - 1];
      assert ns == init + [node];
      var st0 := Walk(init, edges, env);
      StartsInOrder(init, edges, env);
      if st0.failure.Some? {
        StartsFollowKeep(init, node, st0.events, st0.failure);
      } else {
        var tail := StepBlock(st0, node, edges, env);
        StartsFollowStep(init, node, st0.events, tail, Step(st0, node, edges, env).failure);
      }
    }
  }

  /** No error event before the last one, and none at all without a failure. */
  ghost predicate ErrorOnlyLast(events: seq<Event>, failure: Option<string>) {
    && (forall i :: 0 <= i < |events| - 1 ==> !events[i].NodeError?)
    && (failure.None? ==> forall i :: 0 <= i < |events| ==> !events[i].NodeError?)
  }

  lemma ErrorOnlyLastStep(events: seq<Event>, id: NodeId, tail: seq<Event>, failure: Option<string>)
    requires ErrorOnlyLast(events, None)
    requires NodeBlock(tail, id, failure)
    ensures ErrorOnlyLast(events + [NodeStart(id)] + tail, failure)
  {
    var all := events + [NodeStart(id)] + tail;
    forall i | 0 <= i < |all| && (i < |all| - 1 || failure.None?) ensures !all[i].NodeError? {
      if i > |events| {
        assert all[i] == tail[i - |events| - 1];
      }
    }
  }

  /** `onNodeError` is called at most once, as the very last callback, and only when
      the run aborts. */
  lemma {:induction false} ErrorEndsRun(ns: seq<Node>, edges: seq<Edge>, env: Env)
    ensures var st := Walk(ns, edges, env); ErrorOnlyLast(st.events, st.failure)
    decreases |ns|
  {
    if |ns| > 0 {
      var init := ns[..|ns| - 1];
      var st0 := Walk(init, edges, env);
      ErrorEndsRun(init, edges, env);
      if st0.failure.None? {
        var node := ns[|ns| - 1];
        var tail := StepBlock(st0, node, edges, env);
        ErrorOnlyLastStep(st0.events, node.id, tail, Step(st0, node, edges, env).failure);
      }
    }
  }

  /** Each node's callbacks come between its `onNodeStart` and the next node's: every
      callback carries the id of the most recent start. */
  lemma {:induction false} CallbacksNested(ns: seq<Node>, edges: seq<Edge>, env: Env)
    ensures Nested(Walk(ns, edges, env).events)
    decreases |ns|
  {
    if |ns| > 0 {
      var init := ns[..|ns| - 1];
      var st0 := Walk(init, edges, env);
      CallbacksNested(init, edges, env);
      if st0.failure.None? {
        var node := ns[|ns| - 1];
        var tail := StepBlock(st0, node, edges, env);
        NestedExtend(st0.events, node.id, tail);
      }
    }
  }

  // ---------------------------------------------------------------------------
  // Node types

  /** `incoming[0]` is the earliest edge into the node in the edge list, and there
      is one exactly when some edge ends at the node. */
  lemma {:induction false} IncomingFirst(edges: seq<Edge>, id: NodeId)
    ensures |Incoming(edges, id)| > 0 <==> exists k :: 0 <= k < |edges| && edges[k].target == id
    ensures |Incoming(edges, id)| > 0 ==>
      exists k :: 0 <= k < |edges| && edges[k] == Incoming(edges, id)[0] &&
        forall j :: 0 <= j < k ==> edges[j].target != id
    decreases |edges|
  {
    if |edges| > 0 {
      var rest := edges[1..];
      IncomingFirst(rest, id);
      if edges[0].target != id {
        if exists k :: 0 <= k < |edges| && edges[k].target == id {
          var k :| 0 <= k < |edges| && edges[k].target == id;
          assert rest[k - 1].target == id;
        }
        if |Incoming(rest, id)| > 0 {
          var k :| 0 <= k < |rest| && rest[k] == Incoming(rest, id)[0] &&
            forall j :: 0 <= j < k ==> rest[j].target != id;
          assert edges[k + 1] == rest[k];
          forall j | 0 <= j < k + 1 ensures edges[j].target != id {
            if j > 0 { assert edges[j] == rest[j - 1]; }
          }
        }
      }
    }
  }

  /** An input node completes with its value, or `''` without one; an end node
      completes with the stored output of the source of its first incoming edge,
      `''` when that node has none, and does nothing without an incoming edge; a
      node of any other type does nothing. None of them fails. */
  lemma NonPromptNodes(ctx: Context, node: Node, edges: seq<Edge>, env: Env)
    requires !node.kind.Prompt?
    ensures var r := Dispatch(ctx, node, edges, env);
      && r.failure.None?
      && (node.kind.Input? ==>
            var value := node.kind.value.GetOr("");
            r.fired == [NodeComplete(node.id, value)] && r.context == ctx[node.id := value])
      && (node.kind.End? && (forall k :: 0 <= k < |edges| ==> edges[k].target != node.id) ==>
            r.fired == [] && r.context == ctx)
      && (node.kind.End? ==> forall k :: (0 <= k < |edges| && edges[k].target == node.id &&
            (forall j :: 0 <= j < k ==> edges[j].target != node.id)) ==>
            var source := edges[k].source;
            var output := if source in ctx then ctx[source] else "";
            r.fired == [NodeComplete(node.id, output)] && r.context == ctx[node.id := output])
      && (node.kind.Other? ==> r.fired == [] && r.context == ctx)
  {
    if node.kind.End? {
      IncomingFirst(edges, node.id);
      var incoming := Incoming(edges, node.id);
      if |incoming| > 0 {
        var k0 :| 0 <= k0 < |edges| && edges[k0] == incoming[0] &&
          forall j :: 0 <= j < k0 ==> edges[j].target != node.id;
        forall k | 0 <= k < |edges| && edges[k].target == node.id &&
            (forall j :: 0 <= j < k ==> edges[j].target != node.id)
          ensures edges[k] == incoming[0]
        {
          assert incoming[0] in incoming;
          assert !(k < k0) && !(k0 < k);
        }
      }
    }
  }

  /** What one `chatCompletion` call looks like on the node's callbacks. */
  function NodeTokens(es: seq<Event>): seq<string>
    decreases |es|
  {
    if |es| == 0 then []
    else
      var last := es[|es| - 1];
      NodeTokens(es[..|es| - 1]) + (if last.NodeToken? then [last.token] else [])
  }

  lemma {:induction false} ForwardTokens(id: NodeId, es: seq<ChatEvent>)
    ensures NodeTokens(ForwardAll(id, es)) == TokensOf(es)
    decreases |es|
  {
    if |es| > 0 {
      assert ForwardAll(id, es)[..|es| - 1] == ForwardAll(id, es[..|es| - 1]);
      ForwardTokens(id, es[..|es| - 1]);
    }
  }

  /** A settled call forwards one `onNodeComplete`, with the text the promise
      resolves to, and none when it rejects. */
  lemma ForwardComplete(id: NodeId, o: Outcome)
    requires Settled(o)
    ensures forall out :: NodeComplete(id, out) in ForwardAll(id, o.events) <==> o.result == Ok(out)
  {
    var f := ForwardAll(id, o.events);
    var n := |f|;
    forall out ensures NodeComplete(id, out) in f <==> o.result == Ok(out) {
      if NodeComplete(id, out) in f {
        var i :| 0 <= i < n && f[i] == NodeComplete(id, out);
        assert o.events[i].Complete?;
        assert i == n - 1;
      }
      if o.result == Ok(out) {
        assert f[n - 1] == NodeComplete(id, out);
      }
    }
  }

  /** The request a prompt node sends: its model, temperature and token limit,
      streaming on, and the two prompts interpolated against the context as the
      system and the user message. */
  lemma PromptRequest(data: PromptData, ctx: Context, apiKey: string)
    ensures var body := Request(PromptOptions(data, ctx, apiKey)).body;
      && Field(body, "model") == Some(JString(data.model))
      && Field(body, "temperature") == Some(JNumber(data.temperature))
      && Field(body, "max_tokens") == Some(JNumber(data.maxTokens as real))
      && Field(body, "stream") == Some(JBool(true))
      && Field(body, "messages") == Some(JArray([
           MessageJson(ChatMessage(System, Interpolate(data.systemPrompt, ctx))),
           MessageJson(ChatMessage(User, Interpolate(data.userPrompt, ctx)))]))
  {
    var opts := PromptOptions(data, ctx, apiKey);
    RequestDefaults(opts);
    var ms := Field(Request(opts).body, "messages");
    assert ms.value.items == [MessageJson(opts.messages[0]), MessageJson(opts.messages[1])];
  }

  /** `jsonMode` has no effect on what a prompt node does. */
  lemma JsonModeIgnored(ctx: Context, id: NodeId, data: PromptData, b: bool, edges: seq<Edge>, env: Env)
    ensures Dispatch(ctx, Node(id, Prompt(data.(jsonMode := b))), edges, env) ==
            Dispatch(ctx, Node(id, Prompt(data)), edges, env)
  {
    assert PromptOptions(data.(jsonMode := b), ctx, env.apiKey) == PromptOptions(data, ctx, env.apiKey);
  }

  /** A prompt node's step: its start, then the forwarded callbacks of its call. */
  lemma PromptStep(st: RunState, node: Node, edges: seq<Edge>, env: Env)
    requires node.kind.Prompt?
    ensures Step(st, node, edges, env).events == st.events + [NodeStart(node.id)] +
      ForwardAll(node.id, Completion(PromptOptions(node.kind.data, st.context, env.apiKey), env.fetch, env.json).events)
  {
  }

  /** The node's callbacks for a settled call: the tokens in order, then
      `onNodeComplete` with the stored output, or `onNodeError` with the context
      unchanged. */
  lemma SettledForward(ctx: Context, id: NodeId, o: Outcome)
    requires Settled(o)
    ensures var r := PromptResult(ctx, id, o);
      && NodeTokens(r.fired) == TokensOf(o.events)
      && |r.fired| > 0
      && (r.failure.None? <==> o.result.Ok?)
      && (o.result.Ok? ==> r.fired[|r.fired| - 1] == NodeComplete(id, o.result.value) && r.context == ctx[id := o.result.value])
      && (o.result.Err? ==> r.fired[|r.fired| - 1] == NodeError(id, o.result.error) && r.context == ctx)
  {
    ForwardTokens(id, o.events);
  }

  /** A prompt node with a streamed reply: `onNodeToken` for each decoded token in
      order, then `onNodeComplete` with their concatenation, stored as the node's
      output; or, when reading the body fails, `onNodeError` with that error and the
      context as it was. */
  lemma PromptStream(ctx: Context, id: NodeId, data: PromptData, edges: seq<Edge>, env: Env)
    requires var r := env.fetch(Request(PromptOptions(data, ctx, env.apiKey)));
      r.Reply? && r.ok && r.body.Some?
    ensures var body := env.fetch(Request(PromptOptions(data, ctx, env.apiKey))).body.value;
      var tokens := StreamTokens(body.chunks, env.json);
      var r := Dispatch(ctx, Node(id, Prompt(data)), edges, env);
      && NodeTokens(r.fired) == tokens
      && (r.failure.None? <==> body.failure.None?)
      && |r.fired| > 0
      && (body.failure.None? ==>
            r.fired[|r.fired| - 1] == NodeComplete(id, Concat(tokens)) && r.context == ctx[id := Concat(tokens)])
      && (body.failure.Some? ==>
            r.fired[|r.fired| - 1] == NodeError(id, body.failure.value) && r.context == ctx)
  {
    var opts := PromptOptions(data, ctx, env.apiKey);
    var o := Completion(opts, env.fetch, env.json);
    StreamResult(opts, env.fetch, env.json);
    CompletionSettles(opts, env.fetch, env.json);
    SettledForward(ctx, id, o);
  }

  /** A prompt node whose request fails, or whose reply is not OK, fires only
      `onNodeError` and stores nothing; a network failure is reported with its own
      message. */
  lemma PromptFails(ctx: Context, id: NodeId, data: PromptData, edges: seq<Edge>, env: Env)
    requires var r := env.fetch(Request(PromptOptions(data, ctx, env.apiKey)));
      r.FetchFailed? || !r.ok
    ensures var response := env.fetch(Request(PromptOptions(data, ctx, env.apiKey)));
      var r := Dispatch(ctx, Node(id, Prompt(data)), edges, env);
      && r.failure.Some? && r.fired == [NodeError(id, r.failure.value)] && r.context == ctx
      && (response.FetchFailed? ==> r.failure == Some(response.message))
  {
    var opts := PromptOptions(data, ctx, env.apiKey);
    var o := Completion(opts, env.fetch, env.json);
    assert o.events == [Failed(o.result.error)];
    assert ForwardAll(id, o.events) == [NodeError(id, o.result.error)];
  }

  // ---------------------------------------------------------------------------
  // The context

  /** A dispatch touches the context only at the node's own id, leaves it alone
      when the node fails, and stores exactly the output it passes to
      `onNodeComplete`. */
  ghost predicate FramedBy(ctx: Context, id: NodeId, r: NodeResult) {
    && (forall k :: k != id ==> (k in r.context <==> k in ctx))
    && (forall k :: k != id && k in ctx ==> r.context[k] == ctx[k])
    && (r.failure.Some? ==> r.context == ctx)
    && (forall out :: NodeComplete(id, out) in r.fired ==> id in r.context && r.context[id] == out)
    && (r.context == ctx || (id in r.context && NodeComplete(id, r.context[id]) in r.fired))
  }

  lemma DispatchFrame(ctx: Context, node: Node, edges: seq<Edge>, env: Env)
    ensures FramedBy(ctx, node.id, Dispatch(ctx, node, edges, env))
  {
    if node.kind.Prompt? {
      var o := Completion(PromptOptions(node.kind.data, ctx, env.apiKey), env.fetch, env.json);
      CompletionSettles(PromptOptions(node.kind.data, ctx, env.apiKey), env.fetch, env.json);
      ForwardComplete(node.id, o);
    }
  }

  /** The context maps each node that called `onNodeComplete` to the output it
      reported, and holds nothing else. */
  ghost predicate Recorded(context: Context, events: seq<Event>) {
    && (forall i :: 0 <= i < |events| && events[i].NodeComplete? ==>
          events[i].id in context && context[events[i].id] == events[i].output)
    && (forall k :: k in context ==> NodeComplete(k, context[k]) in events)
  }

  lemma RecordedStep(ctx: Context, events: seq<Event>, id: NodeId, r: NodeResult)
    requires Recorded(ctx, events)
    requires forall i :: 0 <= i < |events| ==> events[i].id != id
    requires FramedBy(ctx, id, r) && NodeBlock(r.fired, id, r.failure)
    ensures Recorded(r.context, events + [NodeStart(id)] + r.fired)
  {
    var all := events + [NodeStart(id)] + r.fired;
    forall i | 0 <= i < |all| && all[i].NodeComplete?
      ensures all[i].id in r.context && r.context[all[i].id] == all[i].output
    {
      if i < |events| {
        assert all[i] == events[i];
      } else {
        assert all[i] == r.fired[i - |events| - 1];
        assert all[i] in r.fired;
      }
    }
    forall k | k in r.context ensures NodeComplete(k, r.context[k]) in all {
      if k != id || r.context == ctx {
        assert NodeComplete(k, ctx[k]) in events;
      }
    }
  }

  ghost predicate EventsWithin(es: seq<Event>, ids: set<NodeId>) {
    forall i :: 0 <= i < |es| ==> es[i].id in ids
  }

  lemma EventsWithinStep(es: seq<Event>, id: NodeId, tail: seq<Event>, ids: set<NodeId>)
    requires EventsWithin(es, ids) && id in ids
    requires forall i :: 0 <= i < |tail| ==> tail[i].id == id
    ensures EventsWithin(es + [NodeStart(id)] + tail, ids)
  {
    var all := es + [NodeStart(id)] + tail;
    forall i | 0 <= i < |all| ensures all[i].id in ids {
      if i < |es| { assert all[i] == es[i]; }
      else if i > |es| { assert all[i] == tail[i - |es| - 1]; }
    }
  }

  /** Every event of a run belongs to one of its nodes. */
  lemma {:induction false} EventIds(ns: seq<Node>, edges: seq<Edge>, env: Env)
    ensures EventsWithin(Walk(ns, edges, env).events, IdSet(ns))
    decreases |ns|
  {
    if |ns| > 0 {
      var init := ns[..|ns| - 1];
      var node := ns[|ns| - 1];
      assert ns == init + [node];
      IdSetAppend(init, node);
      var st0 := Walk(init, edges, env);
      EventIds(init, edges, env);
      if st0.failure.None? {
        var tail := StepBlock(st0, node, edges, env);
        EventsWithinStep(st0.events, node.id, tail, IdSet(ns));
      }
    }
  }

  lemma LastIdFresh(ns: seq<Node>)
    requires UniqueIds(ns) && |ns| > 0
    ensures ns[|ns| - 1].id !in IdSet(ns[..|ns| - 1])
  {
  }

  /** With unique node ids, the context after a run maps exactly the completed
      nodes to the outputs they reported, which is what later templates read. */
  lemma {:induction false} ContextRecordsOutputs(ns: seq<Node>, edges: seq<Edge>, env: Env)
    requires UniqueIds(ns)
    ensures var st := Walk(ns, edges, env); Recorded(st.context, st.events)
    decreases |ns|
  {
    if |ns| > 0 {
      var init := ns[..|ns| - 1];
      var node := ns[|ns| - 1];
      var st0 := Walk(init, edges, env);
      assert UniqueIds(init);
      ContextRecordsOutputs(init, edges, env);
      if st0.failure.None? {
        EventIds(init, edges, env);
        LastIdFresh(ns);
        DispatchBlock(st0.context, node, edges, env);
        DispatchFrame(st0.context, node, edges, env);
        RecordedStep(st0.context, st0.events, node.id, Dispatch(st0.context, node, edges, env));
      }
    }
  }

  /** The context only ever holds outputs of the run's own nodes. */
  lemma {:induction false} ContextKeys(ns: seq<Node>, edges: seq<Edge>, env: Env)
    ensures Walk(ns, edges, env).context.Keys <= IdSet(ns)
    decreases |ns|
  {
    if |ns| > 0 {
      var init := ns[..|ns| - 1];
      var node := ns[|ns| - 1];
      assert ns == init + [node];
      IdSetAppend(init, node);
      var st0 := Walk(init, edges, env);
      ContextKeys(init, edges, env);
      if st0.failure.None? {
        DispatchFrame(st0.context, node, edges, env);
      }
    }
  }
}
