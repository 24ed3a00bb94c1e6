/**
  A language-model reply and the JSON object cut out of it. Both
  `get_intent` (agent/llm.py) and `get_llm_function_call` (agent/brain.py)
  strip the reply and hand `raw[raw.find("{"):raw.rfind("}") + 1]` to
  `json.loads`.
 */
module LlmReply {
  import opened Text
  import opened Python

  /** What a call to the language model gave back: its text, or the exception
      the call raised. */
  datatype LlmCall = Replied(text: string) | CallFailed(error: PyError)

  /** What `json.loads` makes of a text: a value, or a JSONDecodeError with its
      message. */
  datatype Loaded = Loaded(value: Json) | DecodeError(message: string)

  /** `raw[raw.find("{"):raw.rfind("}") + 1]` */
  function JsonBlock(raw: string): string {
    Slice(raw, Find(raw, '{'), RFind(raw, '}') + 1)
  }

  /** With a "{" before the last "}", the block runs from the first "{" to the
      last "}", both included. */
  lemma JsonBlockSpan(raw: string)
    requires '{' in raw && '}' in raw && Find(raw, '{') <= RFind(raw, '}')
    ensures var i, j := Find(raw, '{'), RFind(raw, '}');
      JsonBlock(raw) == raw[i..j + 1] && raw[i] == '{' && raw[j] == '}'
  {
  }

  /** Without a "}" the end of the slice is 0, so the block is empty. */
  lemma JsonBlockNoClose(raw: string)
    requires '}' !in raw
    ensures JsonBlock(raw) == []
  {
  }

  /** Without a "{" the start of the slice is -1, the last character: the block
      is "}" when the reply ends with one and empty otherwise. */
  lemma JsonBlockNoOpen(raw: string)
    requires '{' !in raw
    ensures JsonBlock(raw) == if raw != [] && raw[|raw| - 1] == '}' then "}" else []
  {
    if '}' in raw {
      var j := RFind(raw, '}');
      if j == |raw| - 1 {
        assert JsonBlock(raw) == raw[|raw| - 1..];
      }
    }
  }

  /** The block is empty, a lone "}", or a text from "{" to "}". */
  lemma JsonBlockShape(raw: string)
    ensures var b := JsonBlock(raw);
      b == [] || b == "}" || (|b| >= 2 && b[0] == '{' && b[|b| - 1] == '}')
  {
    if '{' !in raw {
      JsonBlockNoOpen(raw);
    } else if '}' in raw && Find(raw, '{') <= RFind(raw, '}') {
      JsonBlockSpan(raw);
    }
  }

  /** A reply that already starts with "{" and ends with "}" is kept whole. */
  lemma JsonBlockWhole(raw: string)
    requires |raw| >= 2 && raw[0] == '{' && raw[|raw| - 1] == '}'
    ensures JsonBlock(raw) == raw
  {
    assert Find(raw, '{') == 0;
    assert RFind(raw, '}') == |raw| - 1;
  }

  /** Cutting the block out twice changes nothing. */
  lemma JsonBlockIdempotent(raw: string)
    ensures JsonBlock(JsonBlock(raw)) == JsonBlock(raw)
  {
    var b := JsonBlock(raw);
    JsonBlockShape(raw);
    if b == "}" {
      JsonBlockNoOpen(b);
    } else if b != [] {
      JsonBlockWhole(b);
    }
  }

  /** What `json.loads` does with the texts the block can be: the empty text
      and a lone "}" are not JSON, and a JSON text that starts with "{" is an
      object. */
  ghost predicate ParsesLikeJson(loads: string -> Loaded) {
    loads([]).DecodeError? && loads("}").DecodeError?
    && forall s :: |s| > 0 && s[0] == '{' && loads(s).Loaded? ==> loads(s).value.JObject?
  }

  /** Whatever the reply, a block that parses is a dict. */
  lemma BlockParsesToObject(raw: string, loads: string -> Loaded)
    requires ParsesLikeJson(loads)
    ensures loads(JsonBlock(raw)).Loaded? ==> loads(JsonBlock(raw)).value.JObject?
  {
    JsonBlockShape(raw);
  }
}
