/**
  The pieces of Python's `str` type that the assistant's glue code relies on:
  `strip`, `lower`, `find`/`rfind`, slicing, `in`, `split`, `join`, `str(int)`,
  `int(str)` and the padding done by format specifications.
 */
module Text {

  datatype Option<T> = None | Some(value: T)

  // ---------------------------------------------------------------------------
  // Whitespace and strip()
  // ---------------------------------------------------------------------------

  /** The characters for which Python's `str.isspace()` holds. */
  predicate IsSpace(c: char) {
    c == ' ' || ('\t' <= c <= '\r') || ('\U{1C}' <= c <= '\U{1F}')
    || c == '\U{85}' || c == '\U{A0}' || c == '\U{1680}'
    || ('\U{2000}' <= c <= '\U{200A}') || c == '\U{2028}' || c == '\U{2029}'
    || c == '\U{202F}' || c == '\U{205F}' || c == '\U{3000}'
  }

  predicate AllSpace(s: string) {
    forall i :: 0 <= i < |s| ==> IsSpace(s[i])
  }

  /** `s.lstrip()`: drops the whitespace at the front (see TrimStartParts). */
  function TrimStart(s: string): (r: string)
    ensures |r| <= |s|
    ensures r == [] || !IsSpace(r[0])
  {
    if s != [] && IsSpace(s[0]) then TrimStart(s[1..]) else s
  }

  /** `s.rstrip()`: drops the whitespace at the back (see TrimEndParts). */
  function TrimEnd(s: string): (r: string)
    ensures |r| <= |s|
    ensures r == [] || !IsSpace(r[|r| - 1])
  {
    if s != [] && IsSpace(s[|s| - 1]) then TrimEnd(s[..|s| - 1]) else s
  }

  /** `s.strip()` */
  function Strip(s: string): string {
    TrimEnd(TrimStart(s))
  }

  /** `lstrip()` keeps a suffix and what it drops is whitespace. */
  lemma {:induction false} TrimStartParts(s: string)
    ensures var k := |s| - |TrimStart(s)|; TrimStart(s) == s[k..] && AllSpace(s[..k])
  {
    if s != [] && IsSpace(s[0]) {
      var t := s[1..];
      var k := |s| - |TrimStart(s)|;
      TrimStartParts(t);
      assert TrimStart(s) == t[k - 1..];
      assert t[k - 1..] == s[k..];
      forall i | 0 <= i < k ensures IsSpace(s[i]) {
        if i > 0 {
          assert s[i] == t[..k - 1][i - 1];
        }
      }
    }
  }

  /** `rstrip()` keeps a prefix and what it drops is whitespace. */
  lemma {:induction false} TrimEndParts(s: string)
    ensures var k := |TrimEnd(s)|; TrimEnd(s) == s[..k] && AllSpace(s[k..])
  {
    if s != [] && IsSpace(s[|s| - 1]) {
      var p := s[..|s| - 1];
      var k := |TrimEnd(s)|;
      TrimEndParts(p);
      assert TrimEnd(s) == p[..k];
      assert p[..k] == s[..k];
      forall i | k <= i < |s| ensures IsSpace(s[i]) {
        if i < |s| - 1 {
          assert s[i] == p[k..][i - k];
        }
      }
    }
  }

  /** `strip()` leaves a text that neither begins nor ends with whitespace. */
  lemma StripEnds(s: string)
    ensures var r := Strip(s); r == [] || (!IsSpace(r[0]) && !IsSpace(r[|r| - 1]))
  {
    var t := TrimStart(s);
    var r := TrimEnd(t);
    TrimEndParts(t);
    if r != [] {
      assert r[0] == t[0];
    }
  }

  /** `strip()` removes whitespace only: the input is the result framed by a
      run of whitespace on each side. */
  lemma StripFrame(s: string)
    ensures var r, a := Strip(s), |s| - |TrimStart(s)|;
      a + |r| <= |s| && s[a..a + |r|] == r && AllSpace(s[..a]) && AllSpace(s[a + |r|..])
  {
    var t := TrimStart(s);
    var r := TrimEnd(t);
    var a := |s| - |t|;
    TrimStartParts(s);
    TrimEndParts(t);
    assert s[a..a + |r|] == t[..|r|];
    assert s[a + |r|..] == t[|r|..];
  }

  lemma {:induction false} TrimStartOfSpace(p: string, t: string)
    requires AllSpace(p)
    requires t == [] || !IsSpace(t[0])
    ensures TrimStart(p + t) == t
  {
    if p != [] {
      assert (p + t)[1..] == p[1..] + t;
      TrimStartOfSpace(p[1..], t);
    }
  }

  lemma {:induction false} TrimEndOfSpace(t: string, q: string)
    requires AllSpace(q)
    requires t == [] || !IsSpace(t[|t| - 1])
    ensures TrimEnd(t + q) == t
  {
    if q != [] {
      assert (t + q)[..|t + q| - 1] == t + q[..|q| - 1];
      TrimEndOfSpace(t, q[..|q| - 1]);
    }
  }

  /** Whitespace around a text that neither begins nor ends with whitespace is
      exactly what `strip()` removes. */
  lemma StripFramed(p: string, t: string, q: string)
    requires AllSpace(p) && AllSpace(q)
    requires t == [] || (!IsSpace(t[0]) && !IsSpace(t[|t| - 1]))
    ensures Strip(p + t + q) == t
  {
    if t == [] {
      assert p + t + q == p + q;
      TrimStartOfSpace(p + q, []);
      assert p + q + [] == p + q;
    } else {
      assert p + t + q == p + (t + q);
      TrimStartOfSpace(p, t + q);
      TrimEndOfSpace(t, q);
    }
  }

  /** A text whose ends are not whitespace is left alone by `strip()`. */
  lemma StripUnchanged(s: string)
    requires s != [] && !IsSpace(s[0]) && !IsSpace(s[|s| - 1])
    ensures Strip(s) == s
  {
    assert TrimStart(s) == s;
  }

  lemma StripIdempotent(s: string)
    ensures Strip(Strip(s)) == Strip(s)
  {
    var r := Strip(s);
    StripEnds(s);
    if r != [] {
      StripUnchanged(r);
    }
  }

  // ---------------------------------------------------------------------------
  // lower()
  // ---------------------------------------------------------------------------

  function LowerChar(c: char): char {
    if 'A' <= c <= 'Z' then (c as int + 32) as char else c
  }

  /** `s.lower()` on ASCII letters. */
  function Lower(s: string): string {
    seq(|s|, i requires 0 <= i < |s| => LowerChar(s[i]))
  }

  predicate HasUpper(s: string) {
    exists i :: 0 <= i < |s| && 'A' <= s[i] <= 'Z'
  }

  /** Lowering keeps the length, leaves no capital letter behind, changes
      nothing in a text without capitals, and so is idempotent. */
  lemma LowerProperties(s: string)
    ensures |Lower(s)| == |s| && !HasUpper(Lower(s))
    ensures !HasUpper(s) ==> Lower(s) == s
    ensures Lower(Lower(s)) == Lower(s)
  {
    var l := Lower(s);
    forall i | 0 <= i < |l| ensures !('A' <= l[i] <= 'Z') {
      assert l[i] == LowerChar(s[i]);
    }
    if !HasUpper(s) {
      forall i | 0 <= i < |s| ensures l[i] == s[i] {
        assert !('A' <= s[i] <= 'Z');
      }
    }
    assert Lower(l) == l by {
      forall i | 0 <= i < |l| ensures Lower(l)[i] == l[i] {
        assert !('A' <= l[i] <= 'Z');
      }
    }
  }

  // ---------------------------------------------------------------------------
  // find(), rfind(), slicing, `in`
  // ---------------------------------------------------------------------------

  /** `s.find(c)`: the first index of `c`, or -1. */
  function Find(s: string, c: char): (r: int)
    ensures -1 <= r < |s|
    ensures r == -1 <==> c !in s
    ensures r >= 0 ==> s[r] == c && c !in s[..r]
  {
    if s == [] then -1
    else if s[0] == c then 0
    else
      var k := Find(s[1..], c);
      assert s == [s[0]] + s[1..];
      if k == -1 then -1
      else
        assert s[..k + 1] == [s[0]] + s[1..][..k];
        k + 1
  }

  /** `s.rfind(c)`: the last index of `c`, or -1. */
  function RFind(s: string, c: char): (r: int)
    ensures -1 <= r < |s|
    ensures r == -1 <==> c !in s
    ensures r >= 0 ==> s[r] == c && c !in s[r + 1..]
  {
    if s == [] then -1
    else if s[|s| - 1] == c then |s| - 1
    else
      var k := RFind(s[..|s| - 1], c);
      assert s == s[..|s| - 1] + [s[|s| - 1]];
      if k >= 0 then
        assert s[k + 1..] == s[..|s| - 1][k + 1..] + [s[|s| - 1]];
        k
      else k
  }

  /** Python's index normalisation for one bound of a slice `s[i:j]`. */
  function SliceBound(i: int, n: nat): (r: nat)
    ensures r <= n
    ensures 0 <= i <= n ==> r == i
    ensures i < 0 && i + n >= 0 ==> r == i + n
  {
    if i < 0 then (if i + n < 0 then 0 else i + n) else if i > n then n else i
  }

  /** `s[i:j]` */
  function Slice(s: string, i: int, j: int): string {
    var a, b := SliceBound(i, |s|), SliceBound(j, |s|);
    if a < b then s[a..b] else []
  }

  predicate IsPrefix(w: string, s: string) {
    |w| <= |s| && s[..|w|] == w
  }

  /** `w in s` for two strings. */
  function Contains(s: string, w: string): bool {
    IsPrefix(w, s) || (s != [] && Contains(s[1..], w))
  }

  predicate OccursAt(s: string, w: string, k: int) {
    0 <= k && k + |w| <= |s| && s[k..k + |w|] == w
  }

  lemma OccursShift(s: string, w: string, k: int)
    requires s != [] && k >= 1
    ensures OccursAt(s, w, k) <==> OccursAt(s[1..], w, k - 1)
  {
    if k + |w| <= |s| {
      var a, b := s[1..][k - 1..k - 1 + |w|], s[k..k + |w|];
      forall t | 0 <= t < |w| ensures a[t] == b[t] {
        assert a[t] == s[k + t];
      }
      assert a == b;
    }
  }

  /** `Contains` holds exactly when the word occurs at some position. */
  lemma {:induction false} ContainsIff(s: string, w: string)
    ensures Contains(s, w) <==> exists k :: OccursAt(s, w, k)
  {
    if IsPrefix(w, s) {
      assert OccursAt(s, w, 0);
    } else if s == [] {
      forall k ensures !OccursAt(s, w, k) {
      }
    } else {
      ContainsIff(s[1..], w);
      forall k | k >= 1 ensures OccursAt(s, w, k) <==> OccursAt(s[1..], w, k - 1) {
        OccursShift(s, w, k);
      }
      assert !OccursAt(s, w, 0);
      if Contains(s[1..], w) {
        var k :| OccursAt(s[1..], w, k);
        assert OccursAt(s, w, k + 1);
      }
    }
  }

  lemma ContainsAt(s: string, w: string, k: int)
    requires OccursAt(s, w, k)
    ensures Contains(s, w)
  {
    ContainsIff(s, w);
  }

  /** Containment of substrings is transitive. */
  lemma ContainsTransitive(s: string, v: string, w: string)
    requires Contains(s, v) && Contains(v, w)
    ensures Contains(s, w)
  {
    ContainsIff(s, v);
    ContainsIff(v, w);
    var i :| OccursAt(s, v, i);
    var j :| OccursAt(v, w, j);
    forall t | 0 <= t < |w| ensures s[i + j + t] == w[t] {
      assert v[j + t] == w[t];
      assert s[i..i + |v|][j + t] == s[i + (j + t)];
    }
    assert s[i + j..i + j + |w|] == w;
    ContainsAt(s, w, i + j);
  }

  // ---------------------------------------------------------------------------
  // split() and join()
  // ---------------------------------------------------------------------------

  /** `sep.join(parts)` */
  function Join(parts: seq<string>, sep: string): string {
    if |parts| == 0 then []
    else if |parts| == 1 then parts[0]
    else parts[0] + sep + Join(parts[1..], sep)
  }

  function Count(s: string, c: char): nat {
    if s == [] then 0 else (if s[0] == c then 1 else 0) + Count(s[1..], c)
  }

  lemma {:induction false} CountAppend(a: string, b: string, c: char)
    ensures Count(a + b, c) == Count(a, c) + Count(b, c)
  {
    if a != [] {
      assert (a + b)[1..] == a[1..] + b;
      CountAppend(a[1..], b, c);
    } else {
      assert a + b == b;
    }
  }

  lemma {:induction false} CountAbsent(s: string, c: char)
    requires c !in s
    ensures Count(s, c) == 0
  {
    if s != [] {
      assert c !in s[1..];
      CountAbsent(s[1..], c);
    }
  }

  /** `s.split(c)` for a one-character separator: the pieces between the
      separators, none of which contains the separator. */
  function Split(s: string, c: char): (parts: seq<string>)
    ensures |parts| >= 1
    ensures forall i :: 0 <= i < |parts| ==> c !in parts[i]
    decreases |s|
  {
    var k := Find(s, c);
    if k == -1 then [s] else [s[..k]] + Split(s[k + 1..], c)
  }

  lemma SplitJoinStep(s: string, c: char, k: int)
    requires k == Find(s, c) && k != -1
    requires Join(Split(s[k + 1..], c), [c]) == s[k + 1..]
    ensures Join(Split(s, c), [c]) == s
  {
    var rest := s[k + 1..];
    var parts := Split(s, c);
    assert parts == [s[..k]] + Split(rest, c);
    assert parts[1..] == Split(rest, c);
    JoinCons(parts, [c]);
    assert s == s[..k] + ([c] + rest);
  }

  /** Splitting then joining with the separator gives the text back. */
  lemma {:induction false} SplitJoin(s: string, c: char)
    ensures Join(Split(s, c), [c]) == s
    decreases |s|
  {
    var k := Find(s, c);
    if k != -1 {
      SplitJoin(s[k + 1..], c);
      SplitJoinStep(s, c, k);
    }
  }

  /** There is one more piece than there are separators. */
  lemma {:induction false} SplitCount(s: string, c: char)
    ensures |Split(s, c)| == Count(s, c) + 1
    decreases |s|
  {
    var k := Find(s, c);
    if k == -1 {
      CountAbsent(s, c);
    } else {
      var rest := s[k + 1..];
      SplitCount(rest, c);
      assert s == s[..k] + [c] + rest;
      CountAppend(s[..k] + [c], rest, c);
      CountAppend(s[..k], [c], c);
      CountAbsent(s[..k], c);
    }
  }

  /** The index of the first whitespace character, or the length. */
  function WordEnd(s: string): (k: nat)
    ensures k <= |s|
    ensures s != [] && !IsSpace(s[0]) ==> k > 0
  {
    if s == [] || IsSpace(s[0]) then 0 else 1 + WordEnd(s[1..])
  }

  /** The text before WordEnd holds no whitespace. */
  lemma {:induction false} WordEndNoSpace(s: string)
    ensures forall i :: 0 <= i < WordEnd(s) ==> !IsSpace(s[i])
  {
    if s != [] && !IsSpace(s[0]) {
      WordEndNoSpace(s[1..]);
      forall i | 0 < i < WordEnd(s) ensures !IsSpace(s[i]) {
        assert s[i] == s[1..][i - 1];
      }
    }
  }

  /** `s.split()` without arguments: the maximal runs of non-whitespace. */
  function SplitWhitespace(s: string): (words: seq<string>)
    ensures |words| <= |s|
    decreases |s|
  {
    var t := TrimStart(s);
    if t == [] then []
    else
      var k := WordEnd(t);
      [t[..k]] + SplitWhitespace(t[k..])
  }

  predicate IsWord(w: string) {
    w != [] && forall j :: 0 <= j < |w| ==> !IsSpace(w[j])
  }

  /** Every piece of `split()` is a non-empty run of non-whitespace. */
  lemma {:induction false} SplitWhitespaceWords(s: string)
    ensures forall i :: 0 <= i < |SplitWhitespace(s)| ==> IsWord(SplitWhitespace(s)[i])
    decreases |s|
  {
    var t := TrimStart(s);
    if t != [] {
      var k := WordEnd(t);
      var w := t[..k];
      var rest := SplitWhitespace(t[k..]);
      SplitWhitespaceWords(t[k..]);
      WordEndNoSpace(t);
      assert IsWord(w) by {
        forall j | 0 <= j < |w| ensures !IsSpace(w[j]) {
          assert w[j] == t[j];
        }
      }
      assert SplitWhitespace(s) == [w] + rest;
      forall i | 0 <= i < |SplitWhitespace(s)| ensures IsWord(SplitWhitespace(s)[i]) {
        if i > 0 {
          assert SplitWhitespace(s)[i] == rest[i - 1];
        }
      }
    }
  }

  lemma {:induction false} WordEndOfWord(w: string, rest: string)
    requires forall j :: 0 <= j < |w| ==> !IsSpace(w[j])
    requires rest == [] || IsSpace(rest[0])
    ensures WordEnd(w + rest) == |w|
  {
    if w != [] {
      assert (w + rest)[1..] == w[1..] + rest;
      WordEndOfWord(w[1..], rest);
    } else {
      assert w + rest == rest;
    }
  }

  /** A word followed by nothing or by whitespace is the first piece of `split()`. */
  lemma SplitWhitespaceCons(w: string, rest: string)
    requires IsWord(w)
    requires rest == [] || IsSpace(rest[0])
    ensures SplitWhitespace(w + rest) == [w] + SplitWhitespace(rest)
  {
    var s := w + rest;
    assert s[0] == w[0];
    TrimStartOfSpace([], s);
    assert [] + s == s;
    assert TrimStart(s) == s;
    WordEndOfWord(w, rest);
    assert s[..|w|] == w;
    assert s[|w|..] == rest;
    assert SplitWhitespace(s) == [s[..WordEnd(s)]] + SplitWhitespace(s[WordEnd(s)..]);
  }

  lemma SplitWhitespaceSkipsSpace(rest: string)
    ensures SplitWhitespace(" " + rest) == SplitWhitespace(rest)
  {
    assert (" " + rest)[1..] == rest;
    assert TrimStart(" " + rest) == TrimStart(rest);
  }

  lemma JoinCons(words: seq<string>, sep: string)
    requires |words| > 1
    ensures Join(words, sep) == words[0] + (sep + Join(words[1..], sep))
  {
  }

  lemma SplitWhitespaceWordThenRest(w: string, rest: string)
    requires IsWord(w)
    ensures SplitWhitespace(w + (" " + rest)) == [w] + SplitWhitespace(rest)
  {
    SplitWhitespaceCons(w, " " + rest);
    SplitWhitespaceSkipsSpace(rest);
  }

  lemma SplitWhitespaceJoinStep(words: seq<string>)
    requires |words| > 1 && IsWord(words[0])
    requires SplitWhitespace(Join(words[1..], " ")) == words[1..]
    ensures SplitWhitespace(Join(words, " ")) == words
  {
    JoinCons(words, " ");
    SplitWhitespaceWordThenRest(words[0], Join(words[1..], " "));
    assert words == [words[0]] + words[1..];
  }

  lemma SplitWhitespaceSingle(w: string)
    requires IsWord(w)
    ensures SplitWhitespace(w) == [w]
  {
    SplitWhitespaceCons(w, []);
    assert w + [] == w;
    assert TrimStart([]) == [];
  }

  /** Words joined by single spaces come back out of `split()` unchanged. */
  lemma {:induction false} SplitWhitespaceOfWords(words: seq<string>)
    requires forall i :: 0 <= i < |words| ==> IsWord(words[i])
    ensures SplitWhitespace(Join(words, " ")) == words
  {
    if |words| == 0 {
      assert Join(words, " ") == [];
      assert TrimStart([]) == [];
    } else if |words| == 1 {
      SplitWhitespaceSingle(words[0]);
    } else {
      SplitWhitespaceOfWords(words[1..]);
      SplitWhitespaceJoinStep(words);
    }
  }

  // ---------------------------------------------------------------------------
  // Integers as text: str(n), int(s) and the padding of format specifications
  // ---------------------------------------------------------------------------

  predicate IsDigit(c: char) {
    '0' <= c <= '9'
  }

  function DigitChar(d: nat): char
    requires d < 10
  {
    ('0' as int + d) as char
  }

  function DigitValue(c: char): nat
    requires IsDigit(c)
  {
    c as int - '0' as int
  }

  /** The decimal digits of a natural number, without leading zeros. */
  function NatToStr(n: nat): (s: string)
    ensures s != [] && forall i :: 0 <= i < |s| ==> IsDigit(s[i])
    ensures |s| > 1 ==> s[0] != '0'
  {
    if n < 10 then [DigitChar(n)] else NatToStr(n / 10) + [DigitChar(n % 10)]
  }

  /** `str(n)` */
  function IntToStr(n: int): string {
    if n < 0 then "-" + NatToStr(-n) else NatToStr(n)
  }

  /** Decimal digits, possibly grouped by single underscores, as `int()`
      accepts them: a digit first and last, and no two underscores in a row. */
  predicate IsNumeral(d: string) {
    |d| > 0 && IsDigit(d[0])
    && (|d| == 1 || IsNumeral(d[1..]) || (d[1] == '_' && |d| > 2 && IsNumeral(d[2..])))
  }

  lemma {:induction false} DigitsAreNumeral(d: string)
    requires d != [] && forall i :: 0 <= i < |d| ==> IsDigit(d[i])
    ensures IsNumeral(d)
  {
    if |d| > 1 {
      DigitsAreNumeral(d[1..]);
    }
  }

  lemma {:induction false} NumeralEndsWithDigit(d: string)
    requires IsNumeral(d)
    ensures IsDigit(d[|d| - 1])
  {
    if |d| > 1 {
      if IsNumeral(d[1..]) {
        NumeralEndsWithDigit(d[1..]);
        assert d[1..][|d| - 2] == d[|d| - 1];
      } else {
        NumeralEndsWithDigit(d[2..]);
        assert d[2..][|d| - 3] == d[|d| - 1];
      }
    }
  }

  /** The value of a numeral, underscores ignored. */
  function NumeralValue(d: string): nat {
    if d == [] then 0
    else if IsDigit(d[|d| - 1]) then NumeralValue(d[..|d| - 1]) * 10 + DigitValue(d[|d| - 1])
    else NumeralValue(d[..|d| - 1])
  }

  function ParseNumeral(d: string): Option<nat> {
    if IsNumeral(d) then Some(NumeralValue(d)) else None
  }

  /** A numeral after an optional sign. */
  function ParseSigned(t: string): Option<int> {
    if t != [] && (t[0] == '-' || t[0] == '+') then
      match ParseNumeral(t[1..])
      case Some(v) => Some(if t[0] == '-' then -(v as int) else v)
      case None => None
    else
      match ParseNumeral(t)
      case Some(v) => Some(v)
      case None => None
  }

  /** U+001C..U+001F: whitespace to `str.isspace()`, but not to `int()`,
      which skips only tab, the line breaks, form feed and space, after
      turning every non-ASCII whitespace character into a space. */
  predicate IsSeparator(c: char) {
    '\U{1C}' <= c <= '\U{1F}'
  }

  predicate NoSeparator(s: string) {
    forall i :: 0 <= i < |s| ==> !IsSeparator(s[i])
  }

  /** `int(s)` for a text: surrounding whitespace, an optional sign, then a
      numeral; `None` where Python raises ValueError. Every other whitespace
      character is skipped at the ends as `strip()` skips it; a separator is
      never skipped and never part of a numeral, so wherever it stands the
      text is rejected. */
  function ParseInt(s: string): Option<int> {
    if NoSeparator(s) then ParseSigned(Strip(s)) else None
  }

  lemma {:induction false} NatToStrValue(n: nat)
    ensures NumeralValue(NatToStr(n)) == n
  {
    if n >= 10 {
      NatToStrValue(n / 10);
      var s := NatToStr(n);
      assert s[..|s| - 1] == NatToStr(n / 10);
    }
  }

  lemma IntToStrEnds(n: int)
    ensures var s := IntToStr(n); s != [] && !IsSpace(s[0]) && !IsSpace(s[|s| - 1])
  {
    var d := NatToStr(if n < 0 then -n else n);
    assert IsDigit(d[0]) && IsDigit(d[|d| - 1]);
    if n < 0 {
      assert IntToStr(n) == "-" + d;
    }
  }

  lemma IntToStrStripped(n: int)
    ensures Strip(IntToStr(n)) == IntToStr(n)
  {
    IntToStrEnds(n);
    StripUnchanged(IntToStr(n));
  }

  lemma StripMinus(d: string)
    requires IsNumeral(d)
    ensures Strip("-" + d) == "-" + d
  {
    var s := "-" + d;
    NumeralEndsWithDigit(d);
    assert s[0] == '-';
    assert s[|s| - 1] == d[|d| - 1];
    StripUnchanged(s);
  }

  lemma ParseSignedMinus(d: string)
    requires IsNumeral(d)
    ensures ParseSigned("-" + d) == Some(-(NumeralValue(d) as int))
  {
    assert ("-" + d)[1..] == d;
  }

  lemma ParseMinus(d: string)
    requires IsNumeral(d) && NoSeparator(d)
    ensures ParseInt("-" + d) == Some(-(NumeralValue(d) as int))
  {
    assert NoSeparator("-" + d) by {
      forall i | 0 < i < |"-" + d| ensures !IsSeparator(("-" + d)[i]) {
        assert ("-" + d)[i] == d[i - 1];
      }
    }
    StripMinus(d);
    ParseSignedMinus(d);
  }

  lemma ParseNegative(n: int)
    requires n < 0
    ensures ParseInt(IntToStr(n)) == Some(n)
  {
    var m: nat := -n;
    var d := NatToStr(m);
    NatToStrValue(m);
    assert IntToStr(n) == "-" + d;
    DigitsAreNumeral(d);
    ParseMinus(d);
  }

  lemma ParseNonNegative(n: int)
    requires n >= 0
    ensures ParseInt(IntToStr(n)) == Some(n)
  {
    var s := IntToStr(n);
    assert NoSeparator(s);
    IntToStrStripped(n);
    DigitsAreNumeral(s);
    NatToStrValue(n);
  }

  /** `int(str(n)) == n`: the decimal text of an integer reads back as that
      integer. */
  lemma ParseIntToStr(n: int)
    ensures ParseInt(IntToStr(n)) == Some(n)
  {
    if n < 0 { ParseNegative(n); } else { ParseNonNegative(n); }
  }

  /** `format(s, '>w')`: right-aligned in a field of `w` characters. */
  function PadLeft(s: string, w: nat): (r: string)
    ensures |r| == if |s| >= w then |s| else w
  {
    if |s| >= w then s else seq(w - |s|, _ => ' ') + s
  }

  /** `format(s, '<w')`: left-aligned in a field of `w` characters. */
  function PadRight(s: string, w: nat): (r: string)
    ensures |r| == if |s| >= w then |s| else w
  {
    if |s| >= w then s else s + seq(w - |s|, _ => ' ')
  }

  /** A number padded with spaces on either side reads back as the number. */
  lemma PaddedIntReadsBack(n: int, w: nat)
    ensures ParseInt(PadLeft(IntToStr(n), w)) == Some(n)
    ensures ParseInt(PadRight(IntToStr(n), w)) == Some(n)
  {
    var d := IntToStr(n);
    IntToStrEnds(n);
    ParseIntToStr(n);
    if |d| < w {
      var pad := seq(w - |d|, _ => ' ');
      assert AllSpace(pad);
      IntToStrNoSeparator(n);
      PaddedNoSeparator(pad, d);
      StripFramed(pad, d, []);
      assert pad + d + [] == PadLeft(d, w);
      StripFramed([], d, pad);
      assert [] + d + pad == PadRight(d, w);
    }
  }

  lemma IntToStrNoSeparator(n: int)
    ensures NoSeparator(IntToStr(n))
  {
    var d := NatToStr(if n < 0 then -n else n);
    if n < 0 {
      forall i | 0 < i < |"-" + d| ensures !IsSeparator(("-" + d)[i]) {
        assert ("-" + d)[i] == d[i - 1];
      }
    }
  }

  lemma PaddedNoSeparator(pad: string, d: string)
    requires NoSeparator(d) && forall i :: 0 <= i < |pad| ==> pad[i] == ' '
    ensures NoSeparator(pad + d) && NoSeparator(d + pad)
  {
    forall i | 0 <= i < |pad + d| ensures !IsSeparator((pad + d)[i]) {
      if i < |pad| { assert (pad + d)[i] == pad[i]; } else { assert (pad + d)[i] == d[i - |pad|]; }
    }
    forall i | 0 <= i < |d + pad| ensures !IsSeparator((d + pad)[i]) {
      if i < |d| { assert (d + pad)[i] == d[i]; } else { assert (d + pad)[i] == pad[i - |d|]; }
    }
  }

  /** `int()` skips a no-break space but not a file separator, although both
      are whitespace to `strip()`. */
  lemma ParseIntSeparators()
    ensures Strip("\U{A0}42") == Strip("\U{1C}42") == "42"
    ensures ParseInt("\U{A0}42") == Some(42) && ParseInt("\U{1C}42") == None
  {
    var d := "42";
    FortyTwo();
    StripFramed("\U{A0}", d, []);
    assert "\U{A0}" + d + [] == "\U{A0}42";
    StripFramed("\U{1C}", d, []);
    assert "\U{1C}" + d + [] == "\U{1C}42";
    assert IsSeparator("\U{1C}42"[0]);
    assert NoSeparator("\U{A0}42");
  }

  lemma FortyTwo()
    ensures var d := "42"; |d| == 2 && !IsSpace(d[0]) && !IsSpace(d[1]) && ParseSigned(d) == Some(42)
  {
    var d := "42";
    DigitsAreNumeral(d);
    assert d[..|d| - 1] == "4" && "4"[..0] == [];
    assert NumeralValue("4") == 4;
  }
}
