/**
  agent/llm.py: what the assistant does with the replies of the language
  model. The model itself is a parameter: each function receives the reply
  (or the exception) that `llm.invoke` produced for its prompt.
 */
module Llm {
  import opened Text
  import opened Python
  import opened LlmReply

  // ---------------------------------------------------------------------------
  // get_intent
  // ---------------------------------------------------------------------------

  /** The dict `get_intent` returns when the block does not parse. */
  function IntentFallback(error: string, raw: string): Json {
    JObject([Entry("function", JStr("fallback")), Entry("args", EmptyDict),
             Entry("error", JStr(error)), Entry("raw", JStr(raw))])
  }

  /** What reading `raw_response` before it is bound raises. */
  const RawUnbound: PyError :=
    PyError("UnboundLocalError", "cannot access local variable 'raw_response' where it is not associated with a value")

  /** `get_intent(user_input)`, given the model's reply to the routing prompt.
      If `llm.invoke` itself raised, the handler reads `raw_response` before
      it was ever bound, so the call ends in UnboundLocalError. */
  function GetIntent(reply: LlmCall, loads: string -> Loaded): Outcome<Json> {
    match reply
    case CallFailed(_) =>
      Raised(RawUnbound)
    case Replied(text) =>
      var raw := Strip(text);
      match loads(JsonBlock(raw))
      case Loaded(v) => Returned(v)
      case DecodeError(msg) => Returned(IntentFallback(msg, raw))
  }

  /** The fallback dict names "fallback", has empty args, and keeps the
      error message and the stripped reply. */
  lemma IntentFallbackFields(error: string, raw: string)
    ensures var d := IntentFallback(error, raw).entries;
      Get(d, "function") == Some(JStr("fallback")) && Get(d, "args") == Some(EmptyDict)
      && Get(d, "error") == Some(JStr(error)) && Get(d, "raw") == Some(JStr(raw))
  {
    var e0, e1 := Entry("function", JStr("fallback")), Entry("args", EmptyDict);
    var e2, e3 := Entry("error", JStr(error)), Entry("raw", JStr(raw));
    assert [e0, e1, e2, e3] == [e0] + [e1, e2, e3];
    assert [e1, e2, e3] == [e1] + [e2, e3];
    assert [e2, e3] == [e2] + [e3];
    assert [e3] == [e3] + [];
    GetHead("function", JStr("fallback"), [e1, e2, e3]);
    GetSkip(e0, [e1, e2, e3], "args");
    GetHead("args", EmptyDict, [e2, e3]);
    GetSkip(e0, [e1, e2, e3], "error");
    GetSkip(e1, [e2, e3], "error");
    GetHead("error", JStr(error), [e3]);
    GetSkip(e0, [e1, e2, e3], "raw");
    GetSkip(e1, [e2, e3], "raw");
    GetSkip(e2, [e3], "raw");
    GetHead("raw", JStr(raw), []);
  }

  /** A reply whose block does not parse routes to "fallback" with empty args,
      and keeps the stripped reply and the parser's message. */
  lemma GetIntentParseFailure(text: string, loads: string -> Loaded)
    requires loads(JsonBlock(Strip(text))).DecodeError?
    ensures GetIntent(Replied(text), loads)
            == Returned(IntentFallback(loads(JsonBlock(Strip(text))).message, Strip(text)))
  {
  }

  /** A block that parses is returned as parsed, and with a parser that
      behaves like `json.loads` every reply gives a dict. */
  lemma GetIntentIsDict(reply: LlmCall, loads: string -> Loaded)
    requires reply.Replied? && ParsesLikeJson(loads)
    ensures var r := GetIntent(reply, loads);
      r.Returned? && r.value.JObject?
      && (loads(JsonBlock(Strip(reply.text))).Loaded? ==> r.value == loads(JsonBlock(Strip(reply.text))).value)
  {
    BlockParsesToObject(Strip(reply.text), loads);
  }

  /** An exception from the model call is never turned into a value. */
  lemma GetIntentCallFailed(e: PyError, loads: string -> Loaded)
    ensures GetIntent(CallFailed(e), loads) == Raised(RawUnbound)
  {
  }

  // ---------------------------------------------------------------------------
  // build_rag_prompt
  // ---------------------------------------------------------------------------

  const RagIntro: string :=
    "You are BitBud, " + "a concise and intelligent personal AI agent.\n\n"
    + "Here are the last few things you talked about:\n"
  const RagAbout: string :=
    "\n\nFurthermore, here is some additional context about the user:\n"
  const RagInstruction: string :=
    "\n\nInstruction:\nGiven the user input below, respond in a short, factual, and helpful way "
    + "using the above context **only if it's relevant**. Do **NOT** guess or overexplain. "
    + "DO **NOT** use direct sentences from the contexts, make it sound more natural. "
    + "If no context applies, respond naturally and ask clarification questions.\n\n"

  lemma RagIntroStart()
    ensures RagIntro[0] == 'Y'
  {
    var first := "You are BitBud, ";
    assert first[0] == 'Y';
    assert RagIntro == first + ("a concise and intelligent personal AI agent.\n\n"
                                + "Here are the last few things you talked about:\n");
  }

  /** The prompt text between the leading and the trailing newline of the
      template. */
  function RagBody(memory: string, about: string, userInput: string): string {
    RagIntro + memory + RagAbout + about + RagInstruction + "User: \"" + userInput + "\""
  }

  /** `build_rag_prompt(user_input, memory_context_docs, about_context_docs)` */
  function BuildRagPrompt(userInput: string, memoryDocs: seq<string>, aboutDocs: seq<string>): string {
    Strip("\n" + RagBody(Join(memoryDocs, "\n"), Join(aboutDocs, "\n"), userInput) + "\n")
  }

  /** `strip()` removes only the template's outer newlines, whatever the
      documents and the user input hold: the prompt is the intro, the memory
      documents one per line, the about documents one per line, the
      instruction, and the user input in double quotes at the very end. */
  lemma BuildRagPromptShape(userInput: string, memoryDocs: seq<string>, aboutDocs: seq<string>)
    ensures var p := BuildRagPrompt(userInput, memoryDocs, aboutDocs);
      p == RagIntro + Join(memoryDocs, "\n") + RagAbout + Join(aboutDocs, "\n")
           + RagInstruction + "User: \"" + userInput + "\""
      && |p| >= |userInput| + 8 && p[|p| - |userInput| - 8..] == "User: \"" + userInput + "\""
  {
    var m, a := Join(memoryDocs, "\n"), Join(aboutDocs, "\n");
    var body := RagBody(m, a, userInput);
    RagBodyEnds(m, a, userInput);
    StripFramed("\n", body, "\n");
    RagBodyTail(m, a, userInput);
  }

  lemma RagBodyEnds(m: string, a: string, u: string)
    ensures var body := RagBody(m, a, u); body[0] == 'Y' && body[|body| - 1] == '"'
  {
    RagIntroStart();
    FrameEnds(RagIntro, m, RagAbout, a, RagInstruction, u);
  }

  lemma FrameEnds(intro: string, m: string, about: string, a: string, instr: string, u: string)
    requires intro != []
    ensures var s := intro + m + about + a + instr + "User: \"" + u + "\"";
      s[0] == intro[0] && s[|s| - 1] == '"'
  {
  }

  lemma RagBodyTail(m: string, a: string, u: string)
    ensures var body, tail := RagBody(m, a, u), "User: \"" + u + "\"";
      |body| >= |tail| && body[|body| - |tail|..] == tail
  {
    var head := RagIntro + m + RagAbout + a + RagInstruction;
    var tail := "User: \"" + u + "\"";
    assert RagBody(m, a, u) == head + tail;
  }

  // ---------------------------------------------------------------------------
  // generate_context_summary and text_to_shell_command
  // ---------------------------------------------------------------------------

  /** `generate_context_summary(text)`, given the model's reply; an exception
      from the call propagates. */
  function GenerateContextSummary(reply: LlmCall): Outcome<Option<string>> {
    match reply
    case CallFailed(e) => Raised(e)
    case Replied(text) =>
      var summary := Strip(text);
      Returned(if Lower(summary) == "none" then None else Some(summary))
  }

  /** "none" in any mix of upper and lower case. */
  predicate IsNoneWord(s: string) {
    |s| == 4 && s[0] in "nN" && s[1] in "oO" && s[2] in "nN" && s[3] in "eE"
  }

  lemma LowerIsNone(s: string)
    ensures Lower(s) == "none" <==> IsNoneWord(s)
  {
    if |s| == 4 {
      if IsNoneWord(s) {
        assert Lower(s) == [LowerChar(s[0]), LowerChar(s[1]), LowerChar(s[2]), LowerChar(s[3])];
      }
      if Lower(s) == "none" {
        assert LowerChar(s[0]) == 'n' && LowerChar(s[1]) == 'o';
        assert LowerChar(s[2]) == 'n' && LowerChar(s[3]) == 'e';
      }
    }
  }

  /** The summary is None exactly when the stripped reply is "none" in any
      casing; otherwise it is the stripped reply. */
  lemma SummaryNoneIff(text: string)
    ensures var r := GenerateContextSummary(Replied(text));
      r.Returned? && (r.value.None? <==> IsNoneWord(Strip(text)))
      && (r.value.Some? ==> r.value.value == Strip(text))
  {
    LowerIsNone(Strip(text));
  }

  const NoCommand: string := "echo 'No command generated'"

  /** `text_to_shell_command(message)`, given the model's reply; an exception
      from the call propagates. */
  function TextToShellCommand(reply: LlmCall): Outcome<string> {
    match reply
    case CallFailed(e) => Raised(e)
    case Replied(text) =>
      var cmd := Strip(text);
      Returned(if cmd != [] then cmd else NoCommand)
  }

  /** The command is the stripped reply when that is not empty and the fixed
      echo otherwise; either way it is a non-empty text with no whitespace at
      its ends. */
  lemma ShellCommandShape(text: string)
    ensures var r := TextToShellCommand(Replied(text));
      r.Returned? && r.value != [] && Strip(r.value) == r.value
      && (r.value == Strip(text) <==> Strip(text) != [])
  {
    var cmd := Strip(text);
    if cmd != [] {
      StripIdempotent(text);
    } else {
      StripUnchanged(NoCommand);
    }
  }
}
