/**
  agent/langGraphRouter.py: the graph that answers a message. `route_input`
  asks the model for an intent, normalises its arguments and, for the three
  memory intents, already talks to the vector store; `decide_next_node` then
  picks the handler node whose output becomes the answer.

  The vector store is not modelled as data. Every call the router makes to
  it is recorded, in order, and what `forget` and `recall` give back is a
  parameter that may depend on all the calls made before, which is
  everything the store's contents can depend on.
 */
module Router {
  import opened Text
  import opened Python
  import AppLauncher

  // ---------------------------------------------------------------------------
  // parse_args
  // ---------------------------------------------------------------------------

  /** `d[key] = value` on a dict: an existing key keeps its place and takes
      the new value, a new key goes at the end. */
  function Put(d: seq<Entry>, key: string, value: Json): seq<Entry> {
    if d == [] then [Entry(key, value)]
    else if d[0].key == key then [Entry(key, value)] + d[1..]
    else [d[0]] + Put(d[1..], key, value)
  }

  /** After the assignment the key holds the new value and every other key
      what it held before. */
  lemma {:induction false} PutGet(d: seq<Entry>, key: string, value: Json, other: string)
    ensures Get(Put(d, key, value), other) == if other == key then Some(value) else Get(d, other)
  {
    if d == [] {
      GetHead(key, value, []);
    } else if d[0].key == key {
      GetHead(key, value, d[1..]);
      if other != key {
        GetSkip(Entry(key, value), d[1..], other);
        GetSkip(d[0], d[1..], other);
        assert d == [d[0]] + d[1..];
      }
    } else {
      PutGet(d[1..], key, value, other);
      assert d == [d[0]] + d[1..];
      if other == d[0].key {
        GetHead(other, d[0].value, Put(d[1..], key, value));
        GetHead(other, d[0].value, d[1..]);
      } else {
        GetSkip(d[0], Put(d[1..], key, value), other);
        GetSkip(d[0], d[1..], other);
      }
    }
  }

  /** `dict(pairs)`: the pairs are assigned from first to last. */
  function DictOfPairs(pairs: seq<(string, string)>): seq<Entry>
    decreases |pairs|
  {
    if pairs == [] then []
    else
      var last := pairs[|pairs| - 1];
      Put(DictOfPairs(pairs[..|pairs| - 1]), last.0, JStr(last.1))
  }

  /** A key is missing from `dict(pairs)` exactly when no pair has it. */
  lemma {:induction false} DictOfPairsKeys(pairs: seq<(string, string)>, key: string)
    ensures Get(DictOfPairs(pairs), key).None? <==> forall i :: 0 <= i < |pairs| ==> pairs[i].0 != key
  {
    if pairs != [] {
      var n := |pairs| - 1;
      var prefix, last := pairs[..n], pairs[n];
      DictOfPairsKeys(prefix, key);
      PutGet(DictOfPairs(prefix), last.0, JStr(last.1), key);
      assert forall i :: 0 <= i < n ==> prefix[i] == pairs[i];
    }
  }

  /** A key of `dict(pairs)` holds the value of the last pair with that key. */
  lemma {:induction false} DictOfPairsLastWins(pairs: seq<(string, string)>, key: string, i: nat)
    requires i < |pairs| && pairs[i].0 == key
    requires forall j :: i < j < |pairs| ==> pairs[j].0 != key
    ensures Get(DictOfPairs(pairs), key) == Some(JStr(pairs[i].1))
  {
    var n := |pairs| - 1;
    var prefix, last := pairs[..n], pairs[n];
    PutGet(DictOfPairs(prefix), last.0, JStr(last.1), key);
    if i < n {
      assert prefix[i] == pairs[i];
      forall j | i < j < n
        ensures prefix[j].0 != key
      {
        assert prefix[j] == pairs[j];
      }
      DictOfPairsLastWins(prefix, key, i);
    }
  }

  /** `parse_args(args)`: a dict is kept, a text is read as a query string
      by `parse_qsl` (given as `qsl`), and anything else gives `{}`. */
  function ParseArgs(args: Json, qsl: string -> seq<(string, string)>): (r: Json)
    ensures r.JObject?
  {
    match args
    case JObject(_) => args
    case JStr(s) => JObject(DictOfPairs(qsl(s)))
    case _ => EmptyDict
  }

  /** The three cases of `parse_args`. */
  lemma ParseArgsCases(args: Json, qsl: string -> seq<(string, string)>)
    ensures args.JObject? ==> ParseArgs(args, qsl) == args
    ensures args.JStr? ==> ParseArgs(args, qsl) == JObject(DictOfPairs(qsl(args.s)))
    ensures !args.JObject? && !args.JStr? ==> ParseArgs(args, qsl) == EmptyDict
  {
  }

  // ---------------------------------------------------------------------------
  // route_input
  // ---------------------------------------------------------------------------

  /** A call the router makes to the vector store. */
  datatype MemoryCall = Remember(text: Json) | Forget(text: Json) | Recall(query: Json)

  /** What the vector store answers, given all the calls made to it before,
      and `summarize_memories`, which agent/llm.py does not define. */
  datatype Memory = Memory(
    forget: (seq<MemoryCall>, Json) -> string,
    recall: (seq<MemoryCall>, Json) -> seq<string>,
    summarize: (seq<string>, Json) -> string)

  /** The state `route_input` returns: the function, its arguments, and an
      output when it produced one. */
  datatype Routed = Routed(func: Json, args: Json, output: Option<Json>)

  /** A result together with the store calls made on the way to it. */
  datatype Step<T> = Step(result: Outcome<T>, calls: seq<MemoryCall>)

  const NothingToRemember: string := "I need something to remember."
  const NothingRecalled: string := "I don\U{2019}t remember anything like that."
  const NotUnderstood: string := "Sorry, I didn\U{2019}t understand that."

  function Remembered(text: string): string {
    "Got it. I\U{2019}ll remember: '" + text + "'"
  }

  /** `{"text": text}` */
  function TextArgs(text: Json): Json {
    JObject([Entry("text", text)])
  }

  /** `route_input(state)`, given what `get_intent` did with the message, the
      query-string parser, the store, and the calls made to the store by
      earlier messages. */
  function RouteInput(intent: Outcome<Json>, qsl: string -> seq<(string, string)>, memory: Memory,
                      before: seq<MemoryCall>): Step<Routed>
  {
    match intent
    case Raised(e) => Step(Raised(e), [])
    case Returned(result) =>
      if !result.JObject? then Step(Raised(NoAttribute(result, "get")), [])
      else
        var func := GetOr(result.entries, "function", JNull);
        var args := ParseArgs(GetOr(result.entries, "args", EmptyDict), qsl);
        var text := GetOr(args.entries, "text", JStr(""));
        if func == JStr("remember") then
          if !text.JStr? then Step(Raised(NoAttribute(text, "strip")), [])
          else if Strip(text.s) == [] then
            Step(Returned(Routed(func, TextArgs(text), Some(JStr(NothingToRemember)))), [])
          else
            Step(Returned(Routed(func, TextArgs(text), Some(JStr(Remembered(text.s))))), [Remember(text)])
        else if func == JStr("forget") then
          Step(Returned(Routed(func, TextArgs(text), Some(JStr(memory.forget(before, text))))), [Forget(text)])
        else if func == JStr("recall") then
          var results := memory.recall(before, text);
          var output := if results != [] then memory.summarize(results, text) else NothingRecalled;
          Step(Returned(Routed(func, TextArgs(text), Some(JStr(output)))), [Recall(text)])
        else if func in {JStr("open_app"), JStr("recommend_music"), JStr("search_web")} then
          Step(Returned(Routed(func, args, None)), [])
        else
          Step(Returned(Routed(JStr("fallback"), EmptyDict, Some(JStr(NotUnderstood)))), [])
  }

  /** An intent that is a dict with the given function and arguments. */
  function Intent(func: string, args: Json): Outcome<Json> {
    Returned(JObject([Entry("function", JStr(func)), Entry("args", args)]))
  }

  lemma IntentFields(func: string, args: Json)
    ensures var d := Intent(func, args).value.entries;
      GetOr(d, "function", JNull) == JStr(func) && GetOr(d, "args", EmptyDict) == args
  {
    var e0, e1 := Entry("function", JStr(func)), Entry("args", args);
    assert [e0, e1] == [e0] + [e1];
    assert [e1] == [e1] + [];
    GetHead("function", JStr(func), [e1]);
    GetSkip(e0, [e1], "args");
    GetHead("args", args, []);
  }

  lemma TextArgsText(text: Json)
    ensures GetOr(TextArgs(text).entries, "text", JStr("")) == text
  {
    GetHead("text", text, []);
    assert [Entry("text", text)] == [Entry("text", text)] + [];
  }

  /** "remember" with a blank text answers that there is nothing to remember
      and does not touch the store. */
  lemma RouteRememberBlank(text: string, qsl: string -> seq<(string, string)>, memory: Memory,
                           before: seq<MemoryCall>)
    requires Strip(text) == []
    ensures RouteInput(Intent("remember", TextArgs(JStr(text))), qsl, memory, before)
            == Step(Returned(Routed(JStr("remember"), TextArgs(JStr(text)), Some(JStr(NothingToRemember)))), [])
  {
    IntentFields("remember", TextArgs(JStr(text)));
    TextArgsText(JStr(text));
  }

  /** "remember" with any other text stores it once and confirms it. */
  lemma RouteRememberText(text: string, qsl: string -> seq<(string, string)>, memory: Memory,
                          before: seq<MemoryCall>)
    requires Strip(text) != []
    ensures RouteInput(Intent("remember", TextArgs(JStr(text))), qsl, memory, before)
            == Step(Returned(Routed(JStr("remember"), TextArgs(JStr(text)), Some(JStr(Remembered(text))))),
                    [Remember(JStr(text))])
  {
    IntentFields("remember", TextArgs(JStr(text)));
    TextArgsText(JStr(text));
  }

  /** "recall" with nothing found says so. */
  lemma RouteRecallNothing(query: string, qsl: string -> seq<(string, string)>, memory: Memory,
                           before: seq<MemoryCall>)
    requires memory.recall(before, JStr(query)) == []
    ensures RouteInput(Intent("recall", TextArgs(JStr(query))), qsl, memory, before)
            == Step(Returned(Routed(JStr("recall"), TextArgs(JStr(query)), Some(JStr(NothingRecalled)))),
                    [Recall(JStr(query))])
  {
    IntentFields("recall", TextArgs(JStr(query)));
    TextArgsText(JStr(query));
  }

  /** "forget" and "recall" call the store once with the text and keep
      `{"text": text}` as the arguments. */
  lemma RouteForgetRecall(func: string, text: string, qsl: string -> seq<(string, string)>, memory: Memory,
                          before: seq<MemoryCall>)
    requires func == "forget" || func == "recall"
    ensures var step := RouteInput(Intent(func, TextArgs(JStr(text))), qsl, memory, before);
      step.result.Returned? && step.result.value.func == JStr(func)
      && step.result.value.args == TextArgs(JStr(text))
      && step.calls == [if func == "forget" then Forget(JStr(text)) else Recall(JStr(text))]
  {
    IntentFields(func, TextArgs(JStr(text)));
    TextArgsText(JStr(text));
  }

  /** The three tool intents pass through with their parsed arguments and no
      output, and without touching the store. */
  lemma RoutePassThrough(func: string, args: Json, qsl: string -> seq<(string, string)>, memory: Memory,
                         before: seq<MemoryCall>)
    requires func in {"open_app", "recommend_music", "search_web"}
    ensures RouteInput(Intent(func, args), qsl, memory, before)
            == Step(Returned(Routed(JStr(func), ParseArgs(args, qsl), None)), [])
  {
    IntentFields(func, args);
  }

  /** Any other function, or none, is routed to "fallback" with `{}`. */
  lemma RouteFallback(d: seq<Entry>, qsl: string -> seq<(string, string)>, memory: Memory,
                      before: seq<MemoryCall>)
    requires GetOr(d, "function", JNull) !in
      {JStr("remember"), JStr("forget"), JStr("recall"), JStr("open_app"), JStr("recommend_music"), JStr("search_web")}
    ensures RouteInput(Returned(JObject(d)), qsl, memory, before)
            == Step(Returned(Routed(JStr("fallback"), EmptyDict, Some(JStr(NotUnderstood)))), [])
  {
  }

  /** Only "remember", "forget" and "recall" reach the store, with one call
      each at most. */
  lemma RouteCallsStoreOnce(intent: Outcome<Json>, qsl: string -> seq<(string, string)>, memory: Memory,
                            before: seq<MemoryCall>)
    ensures var step := RouteInput(intent, qsl, memory, before);
      |step.calls| <= 1
      && (step.calls != [] ==>
            step.result.Returned? && step.result.value.func in {JStr("remember"), JStr("forget"), JStr("recall")})
  {
  }

  // ---------------------------------------------------------------------------
  // decide_next_node and the handlers
  // ---------------------------------------------------------------------------

  datatype Node = OpenAppNode | RecommendMusicNode | SearchWebNode | RememberNode | ForgetNode | RecallNode | FallbackNode

  /** The name the node is registered under. */
  function NodeName(node: Node): string {
    match node
    case OpenAppNode => "open_app"
    case RecommendMusicNode => "recommend_music"
    case SearchWebNode => "search_web"
    case RememberNode => "remember"
    case ForgetNode => "forget"
    case RecallNode => "recall"
    case FallbackNode => "fallback"
  }

  const NodeNames: set<string> :=
    {"open_app", "recommend_music", "search_web", "remember", "forget", "recall", "fallback"}

  /** `decide_next_node(state)` for `state.get("function")`. */
  function DecideNextNode(func: Json): Node {
    if func == JStr("open_app") then OpenAppNode
    else if func == JStr("recommend_music") then RecommendMusicNode
    else if func == JStr("search_web") then SearchWebNode
    else if func == JStr("remember") then RememberNode
    else if func == JStr("forget") then ForgetNode
    else if func == JStr("recall") then RecallNode
    else FallbackNode
  }

  /** Each of the six functions goes to the node of its own name, everything
      else to "fallback", and the chosen name is always one of the seven. */
  lemma DecideNextNodeNames(func: Json)
    ensures NodeName(DecideNextNode(func)) in NodeNames
    ensures func.JStr? && func.s in NodeNames - {"fallback"} ==> NodeName(DecideNextNode(func)) == func.s
    ensures !(func.JStr? && func.s in NodeNames - {"fallback"}) ==> DecideNextNode(func) == FallbackNode
  {
  }

  /** The nodes are told apart by their names. */
  lemma DecideNodeOfName(node: Node)
    ensures DecideNextNode(JStr(NodeName(node))) == node
  {
  }

  /** The tools the handlers call: the app launcher's process start,
      `recommend_music()` (agent/tools/recommend.py is not part of this
      model) and `search_web(query)` (a browser session). */
  datatype Tools = Tools(launch: seq<string> -> AppLauncher.LaunchOutcome, music: string, search: Json -> string)

  /** The handler of `node` for the state `route_input` produced: the output
      it sets, and the store calls it makes. */
  function Handle(node: Node, args: Json, tools: Tools, memory: Memory, before: seq<MemoryCall>): Step<Json>
    requires args.JObject?
  {
    match node
    case OpenAppNode =>
      (match AppLauncher.OpenApp(GetOr(args.entries, "name", JStr("")), tools.launch)
       case Raised(e) => Step(Raised(e), [])
       case Returned(msg) => Step(Returned(JStr(msg)), []))
    case RecommendMusicNode => Step(Returned(JStr(tools.music)), [])
    case SearchWebNode => Step(Returned(JStr(tools.search(GetOr(args.entries, "query", JStr(""))))), [])
    case RememberNode =>
      Step(Returned(JNull), [Remember(GetOr(args.entries, "text", JStr("")))])
    case ForgetNode =>
      var text := GetOr(args.entries, "text", JStr(""));
      Step(Returned(JStr(memory.forget(before, text))), [Forget(text)])
    case RecallNode =>
      var query := GetOr(args.entries, "text", JStr(""));
      var found := memory.recall(before, query);
      Step(Returned(JList(seq(|found|, i requires 0 <= i < |found| => JStr(found[i])))), [Recall(query)])
    case FallbackNode => Step(Returned(JStr(NotUnderstood)), [])
  }

  // ---------------------------------------------------------------------------
  // The whole graph
  // ---------------------------------------------------------------------------

  /** `graph.invoke({"input": message})["output"]`: `route_input`, then the
      node `decide_next_node` picks, whose output replaces any output the
      route produced. */
  function Run(intent: Outcome<Json>, qsl: string -> seq<(string, string)>, tools: Tools, memory: Memory,
               before: seq<MemoryCall>): Step<Json>
  {
    var route := RouteInput(intent, qsl, memory, before);
    match route.result
    case Raised(e) => Step(Raised(e), route.calls)
    case Returned(state) =>
      var handled := Handle(DecideNextNode(state.func), state.args, tools, memory, before + route.calls);
      Step(handled.result, route.calls + handled.calls)
  }

  /** Once `route_input` has produced a state, the run is that state's node
      on top of the route's store calls. */
  lemma RunAfterRoute(intent: Outcome<Json>, qsl: string -> seq<(string, string)>, tools: Tools, memory: Memory,
                      before: seq<MemoryCall>, state: Routed, calls: seq<MemoryCall>)
    requires RouteInput(intent, qsl, memory, before) == Step(Returned(state), calls)
    ensures state.args.JObject?
    ensures var handled := Handle(DecideNextNode(state.func), state.args, tools, memory, before + calls);
      Run(intent, qsl, tools, memory, before) == Step(handled.result, calls + handled.calls)
  {
  }

  /** As written, a blank "remember" text that `route_input` refused to
      store is stored anyway by the "remember" node, and the answer is None
      instead of the refusal. */
  lemma RunStoresBlankText(text: string, qsl: string -> seq<(string, string)>, tools: Tools, memory: Memory,
                           before: seq<MemoryCall>)
    requires Strip(text) == []
    ensures Run(Intent("remember", TextArgs(JStr(text))), qsl, tools, memory, before)
            == Step(Returned(JNull), [Remember(JStr(text))])
  {
    RouteRememberBlank(text, qsl, memory, before);
    RunAfterRoute(Intent("remember", TextArgs(JStr(text))), qsl, tools, memory, before,
                  Routed(JStr("remember"), TextArgs(JStr(text)), Some(JStr(NothingToRemember))), []);
    TextArgsText(JStr(text));
  }

  /** As written, any other "remember" text is stored twice, and the
      confirmation is replaced by None. */
  lemma RunStoresTextTwice(text: string, qsl: string -> seq<(string, string)>, tools: Tools, memory: Memory,
                           before: seq<MemoryCall>)
    requires Strip(text) != []
    ensures Run(Intent("remember", TextArgs(JStr(text))), qsl, tools, memory, before)
            == Step(Returned(JNull), [Remember(JStr(text)), Remember(JStr(text))])
  {
    RouteRememberText(text, qsl, memory, before);
    RunAfterRoute(Intent("remember", TextArgs(JStr(text))), qsl, tools, memory, before,
                  Routed(JStr("remember"), TextArgs(JStr(text)), Some(JStr(Remembered(text)))),
                  [Remember(JStr(text))]);
    TextArgsText(JStr(text));
  }

  /** As written, "forget" deletes twice: the answer is what the second
      deletion, made after the first, reports. */
  lemma RunForgetsTwice(text: string, qsl: string -> seq<(string, string)>, tools: Tools, memory: Memory,
                        before: seq<MemoryCall>)
    ensures Run(Intent("forget", TextArgs(JStr(text))), qsl, tools, memory, before)
            == Step(Returned(JStr(memory.forget(before + [Forget(JStr(text))], JStr(text)))),
                    [Forget(JStr(text)), Forget(JStr(text))])
  {
    RouteForgetRecall("forget", text, qsl, memory, before);
    var route := RouteInput(Intent("forget", TextArgs(JStr(text))), qsl, memory, before);
    RunAfterRoute(Intent("forget", TextArgs(JStr(text))), qsl, tools, memory, before, route.result.value, route.calls);
    TextArgsText(JStr(text));
  }

  /** As written, the answer to "recall" is the list a second query returns,
      never the summary or the "nothing" message `route_input` produced. */
  lemma RunRecallAnswersList(query: string, qsl: string -> seq<(string, string)>, tools: Tools, memory: Memory,
                             before: seq<MemoryCall>)
    ensures var found := memory.recall(before + [Recall(JStr(query))], JStr(query));
      var run := Run(Intent("recall", TextArgs(JStr(query))), qsl, tools, memory, before);
      run.calls == [Recall(JStr(query)), Recall(JStr(query))]
      && run.result.Returned? && run.result.value.JList? && |run.result.value.items| == |found|
      && forall i :: 0 <= i < |found| ==> run.result.value.items[i] == JStr(found[i])
  {
    RouteForgetRecall("recall", query, qsl, memory, before);
    var route := RouteInput(Intent("recall", TextArgs(JStr(query))), qsl, memory, before);
    RunAfterRoute(Intent("recall", TextArgs(JStr(query))), qsl, tools, memory, before, route.result.value, route.calls);
    TextArgsText(JStr(query));
  }

  /** The graph with the memory nodes ending the run: for "remember",
      "forget" and "recall" the answer is the output `route_input` already
      produced, and the store is not called again. */
  function CorrectedRun(intent: Outcome<Json>, qsl: string -> seq<(string, string)>, tools: Tools, memory: Memory,
                        before: seq<MemoryCall>): Step<Json>
  {
    var route := RouteInput(intent, qsl, memory, before);
    match route.result
    case Raised(e) => Step(Raised(e), route.calls)
    case Returned(state) =>
      if state.output.Some? && state.func in {JStr("remember"), JStr("forget"), JStr("recall")} then
        Step(Returned(state.output.value), route.calls)
      else
        var handled := Handle(DecideNextNode(state.func), state.args, tools, memory, before + route.calls);
        Step(handled.result, route.calls + handled.calls)
  }

  /** In the corrected graph a blank text is refused and never stored, any
      other text is stored exactly once and confirmed. */
  lemma CorrectedRemember(text: string, qsl: string -> seq<(string, string)>, tools: Tools, memory: Memory,
                          before: seq<MemoryCall>)
    ensures var run := CorrectedRun(Intent("remember", TextArgs(JStr(text))), qsl, tools, memory, before);
      if Strip(text) == [] then run == Step(Returned(JStr(NothingToRemember)), [])
      else run == Step(Returned(JStr(Remembered(text))), [Remember(JStr(text))])
  {
    if Strip(text) == [] {
      RouteRememberBlank(text, qsl, memory, before);
    } else {
      RouteRememberText(text, qsl, memory, before);
    }
  }

  /** In the corrected graph every message calls the store at most once,
      and the other intents are answered exactly as before. */
  lemma CorrectedRunCallsOnce(intent: Outcome<Json>, qsl: string -> seq<(string, string)>, tools: Tools,
                              memory: Memory, before: seq<MemoryCall>)
    ensures |CorrectedRun(intent, qsl, tools, memory, before).calls| <= 1
    ensures var route := RouteInput(intent, qsl, memory, before);
      route.result.Returned? && route.result.value.func !in {JStr("remember"), JStr("forget"), JStr("recall")}
      ==> CorrectedRun(intent, qsl, tools, memory, before) == Run(intent, qsl, tools, memory, before)
  {
    RouteCallsStoreOnce(intent, qsl, memory, before);
  }
}
