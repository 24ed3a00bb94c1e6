/**
  agent/brain.py: the older single-step assistant. The model's reply to the
  function-calling prompt becomes a decision (a dict, normally), and
  `process_message` turns the decision into the text shown to the user.
 */
module Brain {
  import opened Text
  import opened Python
  import opened LlmReply
  import AppLauncher

  const LlmErrorPrefix: string := "LLM error: "
  const NotUnderstood: string := "Sorry, I didn\U{2019}t understand that."
  const MusicPick: string := "Try 'Mare Yuvraj sa Chakka'."
  const SearchPrefix: string := "Searching the web for: "
  const SearchSuffix: string := "...khikhi, I can't do that yet."

  /** The decision made of an exception: `{"reply": "LLM error: ..."}`. */
  function ErrorReply(message: string): Json {
    JObject([Entry("reply", JStr(LlmErrorPrefix + message))])
  }

  /** `get_llm_function_call(message)`, given what the HTTP call to the model
      produced: the "response" text of its reply, or the exception raised on
      the way. Every exception inside the `try` becomes an error reply. */
  function GetLlmFunctionCall(reply: LlmCall, loads: string -> Loaded): Json {
    match reply
    case CallFailed(e) => ErrorReply(e.message)
    case Replied(text) =>
      match loads(JsonBlock(Strip(text)))
      case Loaded(v) => v
      case DecodeError(msg) => ErrorReply(msg)
  }

  /** `recommend_music()` */
  function RecommendMusic(): string {
    MusicPick
  }

  /** `search_web(query)` */
  function SearchWeb(query: Json): string {
    SearchPrefix + Str(query) + SearchSuffix
  }

  /** `open_app(app_name)`: the same table as the launcher tool, with this
      module's own messages. */
  function OpenApp(appName: Json, launch: seq<string> -> AppLauncher.LaunchOutcome): Outcome<string> {
    match appName
    case JStr(name) =>
      var command := AppLauncher.Lookup(name);
      if command.Some? && command.value != [] then
        match launch(AppLauncher.Argv(command.value))
        case Launched => Returned("Opening " + name + ".")
        case LaunchFailed(e) => Returned("Failed to open " + name + ": " + e)
      else
        Returned("I don't know how to open '" + name + "' yet.")
    case _ => Raised(NoAttribute(appName, "lower"))
  }

  /** The arguments after decoding a `"key=value"` text: one "=" gives a
      one-entry dict of the stripped halves, any other count an empty dict;
      anything else is kept as it is. */
  function DecodeArgs(args: Json): Json {
    match args
    case JStr(s) =>
      var parts := Split(s, '=');
      if |parts| == 2 then JObject([Entry(Strip(parts[0]), JStr(Strip(parts[1])))]) else EmptyDict
    case _ => args
  }

  /** The `if`/`elif` chain on the function name. */
  function CallFunction(func: Json, args: Json, launch: seq<string> -> AppLauncher.LaunchOutcome): Outcome<Json> {
    if func == JStr("open_app") then
      match GetFrom(args, "name", JStr("unknown"))
      case Raised(e) => Raised(e)
      case Returned(name) =>
        (match OpenApp(name, launch)
         case Raised(e) => Raised(e)
         case Returned(msg) => Returned(JStr(msg)))
    else if func == JStr("search_web") then
      match GetFrom(args, "query", JStr("unknown"))
      case Raised(e) => Raised(e)
      case Returned(query) => Returned(JStr(SearchWeb(query)))
    else if func == JStr("recommend_music") then
      Returned(JStr(RecommendMusic()))
    else
      Returned(JStr(NotUnderstood))
  }

  /** `process_message(message)` for the decision `get_llm_function_call`
      produced. A string is returned as it is; a dict with "reply" returns
      that entry; otherwise the named function is called. The other kinds of
      value fail where Python fails on them. */
  function ProcessMessage(decision: Json, launch: seq<string> -> AppLauncher.LaunchOutcome): Outcome<Json> {
    match decision
    case JStr(_) => Returned(decision)
    case JObject(d) =>
      if HasKey(d, "reply") then Returned(GetOr(d, "reply", JNull))
      else CallFunction(GetOr(d, "function", JNull), DecodeArgs(GetOr(d, "args", EmptyDict)), launch)
    case JList(items) =>
      if JStr("reply") in items then
        Raised(PyError("TypeError", "list indices must be integers or slices, not str"))
      else
        Raised(NoAttribute(decision, "get"))
    case _ =>
      Raised(PyError("TypeError", "argument of type '" + TypeName(decision) + "' is not iterable"))
  }

  // ---------------------------------------------------------------------------
  // Properties
  // ---------------------------------------------------------------------------

  /** A string decision is the answer. */
  lemma StringDecisionReturned(s: string, launch: seq<string> -> AppLauncher.LaunchOutcome)
    ensures ProcessMessage(JStr(s), launch) == Returned(JStr(s))
  {
  }

  /** A "reply" entry wins over everything else the decision holds. */
  lemma ReplyWins(d: seq<Entry>, v: Json, launch: seq<string> -> AppLauncher.LaunchOutcome)
    requires Get(d, "reply") == Some(v)
    ensures ProcessMessage(JObject(d), launch) == Returned(v)
  {
  }

  /** A failed model call, or a reply without a parsable block, reaches the
      user as "LLM error: " and the exception's message. */
  lemma LlmErrorShown(reply: LlmCall, loads: string -> Loaded, launch: seq<string> -> AppLauncher.LaunchOutcome)
    requires reply.CallFailed? || loads(JsonBlock(Strip(reply.text))).DecodeError?
    ensures var msg := if reply.CallFailed? then reply.error.message
                       else loads(JsonBlock(Strip(reply.text))).message;
      ProcessMessage(GetLlmFunctionCall(reply, loads), launch) == Returned(JStr(LlmErrorPrefix + msg))
  {
    var msg := if reply.CallFailed? then reply.error.message else loads(JsonBlock(Strip(reply.text))).message;
    GetHead("reply", JStr(LlmErrorPrefix + msg), []);
    assert [Entry("reply", JStr(LlmErrorPrefix + msg))] == [Entry("reply", JStr(LlmErrorPrefix + msg))] + [];
  }

  /** With a parser that behaves like `json.loads`, every decision is a dict. */
  lemma DecisionIsDict(reply: LlmCall, loads: string -> Loaded)
    requires ParsesLikeJson(loads)
    ensures GetLlmFunctionCall(reply, loads).JObject?
  {
    if reply.Replied? {
      BlockParsesToObject(Strip(reply.text), loads);
    }
  }

  lemma SplitSingle(s: string)
    requires Find(s, '=') == -1
    ensures Split(s, '=') == [s]
  {
  }

  /** The pieces of a text with one "=": what precedes it and what follows. */
  lemma SplitAtOne(s: string)
    requires Count(s, '=') == 1
    ensures var k := Find(s, '=');
      0 <= k && Split(s, '=') == [s[..k], s[k + 1..]]
  {
    SplitCount(s, '=');
    var k := Find(s, '=');
    assert k != -1 by {
      if k == -1 {
        CountAbsent(s, '=');
      }
    }
    var rest := s[k + 1..];
    assert Split(s, '=') == [s[..k]] + Split(rest, '=');
    SplitCount(rest, '=');
    assert |Split(rest, '=')| == 1;
    assert Find(rest, '=') == -1;
    SplitSingle(rest);
  }

  /** Text arguments: exactly one "=" gives `{lhs.strip(): rhs.strip()}`, and
      no "=" or more than one gives `{}`. */
  lemma DecodeArgsText(s: string)
    ensures var k := Find(s, '=');
      Count(s, '=') == 1 ==>
        0 <= k && DecodeArgs(JStr(s)) == JObject([Entry(Strip(s[..k]), JStr(Strip(s[k + 1..])))])
    ensures Count(s, '=') != 1 ==> DecodeArgs(JStr(s)) == EmptyDict
  {
    SplitCount(s, '=');
    if Count(s, '=') == 1 {
      SplitAtOne(s);
    }
  }

  /** Without "reply", a function other than the three known ones gets the
      apology, whatever the arguments are. */
  lemma UnknownFunction(d: seq<Entry>, launch: seq<string> -> AppLauncher.LaunchOutcome)
    requires !HasKey(d, "reply")
    requires GetOr(d, "function", JNull) !in {JStr("open_app"), JStr("search_web"), JStr("recommend_music")}
    ensures ProcessMessage(JObject(d), launch) == Returned(JStr(NotUnderstood))
  {
  }

  /** The other branches of the dispatch: `recommend_music` ignores its
      arguments; `search_web` searches for the "query" entry, or "unknown";
      `open_app` without a "name" looks up "unknown", which no app is called;
      and arguments that are not a dict fail on `.get` for the two functions
      that read them. */
  lemma CallFunctionTools(args: Json, launch: seq<string> -> AppLauncher.LaunchOutcome)
    ensures CallFunction(JStr("recommend_music"), args, launch) == Returned(JStr(MusicPick))
    ensures args.JObject? ==>
      CallFunction(JStr("search_web"), args, launch)
      == Returned(JStr(SearchPrefix + Str(GetOr(args.entries, "query", JStr("unknown"))) + SearchSuffix))
    ensures args.JObject? && !HasKey(args.entries, "name") ==>
      CallFunction(JStr("open_app"), args, launch) == Returned(JStr("I don't know how to open 'unknown' yet."))
    ensures !args.JObject? ==>
      CallFunction(JStr("open_app"), args, launch) == Raised(NoAttribute(args, "get"))
      && CallFunction(JStr("search_web"), args, launch) == Raised(NoAttribute(args, "get"))
  {
    if args.JObject? && !HasKey(args.entries, "name") {
      assert GetOr(args.entries, "name", JStr("unknown")) == JStr("unknown");
      assert Lower("unknown") == "unknown";
      OpenUnknownApp("unknown", launch, launch);
      assert "I don't know how to open '" + "unknown" + "' yet." == "I don't know how to open 'unknown' yet.";
    }
  }

  /** The app lookup is the launcher's, case-insensitive over its six names;
      an unknown name gets this module's "I don't know" message and nothing
      is launched. */
  lemma OpenUnknownApp(name: string, l1: seq<string> -> AppLauncher.LaunchOutcome,
                       l2: seq<string> -> AppLauncher.LaunchOutcome)
    requires Lower(name) !in AppLauncher.AppNames
    ensures OpenApp(JStr(name), l1) == OpenApp(JStr(name), l2)
            == Returned("I don't know how to open '" + name + "' yet.")
  {
    AppLauncher.LookupIgnoresCase(name);
  }

  /** A known name in any casing is launched with the table's command. */
  lemma OpenKnownApp(name: string, launch: seq<string> -> AppLauncher.LaunchOutcome)
    requires Lower(name) in AppLauncher.AppNames
    ensures var argv := AppLauncher.Argv(AppLauncher.Commands[Lower(name)]);
      OpenApp(JStr(name), launch)
      == Returned(if launch(argv).Launched? then "Opening " + name + "."
                  else "Failed to open " + name + ": " + launch(argv).message)
  {
    AppLauncher.CommandsTable();
  }
}
