/**
  The Python values the assistant passes around: what `json.loads` can
  return (no floats), the exceptions that escape a function, and the few
  built-ins the glue code applies to such values (`str`, `repr`, `int`,
  truthiness, `dict.get`, `in`, `format(v, '02d')`).
 */
module Python {
  import opened Text

  /** A JSON-shaped Python value. A dict keeps its entries in insertion order. */
  datatype Json =
    | JNull
    | JBool(b: bool)
    | JInt(i: int)
    | JStr(s: string)
    | JList(items: seq<Json>)
    | JObject(entries: seq<Entry>)

  datatype Entry = Entry(key: string, value: Json)

  /** An exception: its class name and `str(e)`. */
  datatype PyError = PyError(kind: string, message: string)

  /** What a call does: it returns a value or raises. */
  datatype Outcome<T> = Returned(value: T) | Raised(error: PyError)

  const EmptyDict: Json := JObject([])

  // ---------------------------------------------------------------------------
  // dict operations
  // ---------------------------------------------------------------------------

  /** `key in d` */
  predicate HasKey(d: seq<Entry>, key: string) {
    exists i :: 0 <= i < |d| && d[i].key == key
  }

  /** `d.get(key)` */
  function Get(d: seq<Entry>, key: string): (r: Option<Json>)
    ensures r.Some? <==> HasKey(d, key)
    ensures r.Some? ==> exists i :: 0 <= i < |d| && d[i] == Entry(key, r.value)
  {
    if d == [] then None
    else if d[0].key == key then Some(d[0].value)
    else
      var r := Get(d[1..], key);
      assert forall i :: 0 < i < |d| ==> d[i] == d[1..][i - 1];
      if r.Some? then
        ghost var j :| 0 <= j < |d[1..]| && d[1..][j] == Entry(key, r.value);
        assert d[j + 1] == Entry(key, r.value);
        r
      else
        assert forall i :: 0 <= i < |d| ==> d[i].key != key by {
          forall i | 0 <= i < |d| ensures d[i].key != key {
            if i > 0 {
              assert d[i] == d[1..][i - 1];
            }
          }
        }
        r
  }

  /** Looking up the first key of a dict gives its value. */
  lemma GetHead(key: string, value: Json, rest: seq<Entry>)
    ensures Get([Entry(key, value)] + rest, key) == Some(value)
  {
  }

  /** Looking up another key skips the first entry. */
  lemma GetSkip(e: Entry, rest: seq<Entry>, key: string)
    requires e.key != key
    ensures Get([e] + rest, key) == Get(rest, key)
  {
    assert ([e] + rest)[1..] == rest;
  }

  /** `d.get(key, default)` */
  function GetOr(d: seq<Entry>, key: string, default: Json): Json {
    match Get(d, key)
    case Some(v) => v
    case None => default
  }

  /** `v.get(key, default)` where `v` may be something other than a dict. */
  function GetFrom(v: Json, key: string, default: Json): Outcome<Json> {
    if v.JObject? then Returned(GetOr(v.entries, key, default))
    else Raised(NoAttribute(v, "get"))
  }

  // ---------------------------------------------------------------------------
  // Truthiness, type names, equality with a string
  // ---------------------------------------------------------------------------

  /** `bool(v)` */
  predicate Truthy(v: Json) {
    match v
    case JNull => false
    case JBool(b) => b
    case JInt(i) => i != 0
    case JStr(s) => s != []
    case JList(items) => items != []
    case JObject(entries) => entries != []
  }

  /** `a or b` */
  function Or(a: Json, b: Json): (r: Json)
    ensures r == a || r == b
    ensures Truthy(a) ==> r == a
  {
    if Truthy(a) then a else b
  }

  /** `type(v).__name__` */
  function TypeName(v: Json): string {
    match v
    case JNull => "NoneType"
    case JBool(_) => "bool"
    case JInt(_) => "int"
    case JStr(_) => "str"
    case JList(_) => "list"
    case JObject(_) => "dict"
  }

  /** The AttributeError raised by `v.name` on a value that lacks it. */
  function NoAttribute(v: Json, name: string): PyError {
    PyError("AttributeError", "'" + TypeName(v) + "' object has no attribute '" + name + "'")
  }

  // ---------------------------------------------------------------------------
  // str() and repr()
  // ---------------------------------------------------------------------------

  function HexDigit(d: nat): char
    requires d < 16
  {
    if d < 10 then DigitChar(d) else ('a' as int + d - 10) as char
  }

  /** The `width` lowest hexadecimal digits of `n`, most significant first. */
  function Hex(n: nat, width: nat): (r: string)
    ensures |r| == width
  {
    if width == 0 then [] else Hex(n / 16, width - 1) + [HexDigit(n % 16)]
  }

  /** Characters `repr` escapes besides the quote and the backslash: ASCII
      controls, DEL, and the non-printable Latin-1 characters. */
  predicate Unprintable(c: char) {
    c < ' ' || ('\U{7F}' <= c <= '\U{A0}') || c == '\U{AD}'
  }

  /** How `repr` writes one character of a text quoted by `quote`. */
  function ReprChar(c: char, quote: char): string {
    if c == quote || c == '\\' then ['\\', c]
    else if c == '\t' then "\\t"
    else if c == '\n' then "\\n"
    else if c == '\r' then "\\r"
    else if Unprintable(c) then "\\x" + Hex(c as nat, 2)
    else [c]
  }

  /** The quote `repr` picks: single, unless the text holds a single quote and
      no double quote. */
  function QuoteFor(s: string): char {
    if '\'' in s && '"' !in s then '"' else '\''
  }

  function ReprChars(s: string, quote: char): string {
    if s == [] then [] else ReprChar(s[0], quote) + ReprChars(s[1..], quote)
  }

  /** `repr(s)` for a text. */
  function ReprStr(s: string): (r: string)
    ensures |r| >= 2 && r[0] == r[|r| - 1] == QuoteFor(s)
  {
    var q := QuoteFor(s);
    [q] + ReprChars(s, q) + [q]
  }

  /** `repr(v)` */
  function Repr(v: Json): string
    decreases v
  {
    match v
    case JNull => "None"
    case JBool(b) => if b then "True" else "False"
    case JInt(i) => IntToStr(i)
    case JStr(s) => ReprStr(s)
    case JList(items) =>
      "[" + Join(seq(|items|, k requires 0 <= k < |items| => Repr(items[k])), ", ") + "]"
    case JObject(es) =>
      "{" + Join(seq(|es|, k requires 0 <= k < |es| =>
                       ReprStr(es[k].key) + ": " + Repr(es[k].value)), ", ") + "}"
  }

  /** `str(v)`, which is also what an f-string shows for `{v}`. */
  function Str(v: Json): string {
    if v.JStr? then v.s else Repr(v)
  }

  /** A text with no quote, backslash or unprintable character is shown
      between single quotes as it is. */
  lemma {:induction false} ReprPlain(s: string)
    requires forall k :: 0 <= k < |s| ==> s[k] != '\'' && s[k] != '\\' && !Unprintable(s[k])
    ensures ReprStr(s) == "'" + s + "'"
  {
    PlainChars(s);
  }

  lemma {:induction false} PlainChars(s: string)
    requires forall k :: 0 <= k < |s| ==> s[k] != '\'' && s[k] != '\\' && !Unprintable(s[k])
    ensures ReprChars(s, '\'') == s
  {
    if s != [] {
      PlainChars(s[1..]);
      assert s == [s[0]] + s[1..];
    }
  }

  /** `str(n)` reads back as `n`. */
  lemma StrOfInt(n: int)
    ensures ParseInt(Str(JInt(n))) == Some(n)
  {
    ParseIntToStr(n);
  }

  // ---------------------------------------------------------------------------
  // int() and format(v, '02d')
  // ---------------------------------------------------------------------------

  const BadLiteral: string := "invalid literal for int() with base 10: "
  const BadArgument: string := "int() argument must be a string, a bytes-like object or a real number, not '"

  /** `int(v)` */
  function ToInt(v: Json): (r: Outcome<int>)
    ensures r.Returned? <==> v.JInt? || v.JBool? || (v.JStr? && ParseInt(v.s).Some?)
    ensures r.Raised? ==> r.error.kind == (if v.JStr? then "ValueError" else "TypeError")
  {
    match v
    case JInt(i) => Returned(i)
    case JBool(b) => Returned(if b then 1 else 0)
    case JStr(s) =>
      (match ParseInt(s)
       case Some(n) => Returned(n)
       case None => Raised(PyError("ValueError", BadLiteral + ReprStr(s))))
    case _ =>
      Raised(PyError("TypeError", BadArgument + TypeName(v) + "'"))
  }

  /** `int(str(n)) == n`, and `int` of an integer is that integer. */
  lemma ToIntOfStr(n: int)
    ensures ToInt(JStr(Str(JInt(n)))) == Returned(n) && ToInt(JInt(n)) == Returned(n)
  {
    ParseIntToStr(n);
  }

  /** Zeros in front of a digit string up to `w` characters. */
  function ZeroPad(d: string, w: nat): (r: string)
    ensures |r| == if |d| >= w then |d| else w
    ensures r[|r| - |d|..] == d
  {
    if |d| >= w then d else seq(w - |d|, _ => '0') + d
  }

  /** `format(n, '02d')` for an integer: the sign counts toward the width. */
  function IntField02(n: int): string {
    if n < 0 then "-" + ZeroPad(NatToStr(-n), 1) else ZeroPad(NatToStr(n), 2)
  }

  /** `format(v, '02d')`: integers (and booleans, which are integers) only. */
  function Format02d(v: Json): Outcome<string> {
    match v
    case JInt(i) => Returned(IntField02(i))
    case JBool(b) => Returned(IntField02(if b then 1 else 0))
    case JStr(_) => Raised(PyError("ValueError", "Unknown format code 'd' for object of type 'str'"))
    case _ => Raised(PyError("TypeError", "unsupported format string passed to " + TypeName(v) + ".__format__"))
  }

  lemma Field02Wide(n: int)
    requires n < 0 || n >= 10
    ensures IntField02(n) == IntToStr(n)
    ensures 10 <= n <= 99 ==> |IntField02(n)| == 2
  {
    if 10 <= n <= 99 {
      assert NatToStr(n / 10) == [DigitChar(n / 10)];
    }
  }

  lemma Field02Digit(n: int)
    requires 0 <= n < 10
    ensures IntField02(n) == ['0', DigitChar(n)]
    ensures ParseInt(IntField02(n)) == Some(n)
  {
    var s := ['0', DigitChar(n)];
    assert NatToStr(n) == [DigitChar(n)];
    StripUnchanged(s);
    DigitsAreNumeral(s);
    assert s[..1] == ['0'];
    assert NumeralValue(['0']) == 0;
    assert DigitValue(DigitChar(n)) == n;
  }

  /** The `02d` field of an integer reads back as that integer, and is two
      characters wide for 0..99. */
  lemma Format02dInt(n: int)
    ensures Format02d(JInt(n)).Returned?
    ensures ParseInt(Format02d(JInt(n)).value) == Some(n)
    ensures 0 <= n <= 99 ==> |Format02d(JInt(n)).value| == 2
  {
    if n < 0 || n >= 10 {
      Field02Wide(n);
      ParseIntToStr(n);
    } else {
      Field02Digit(n);
    }
  }
}
