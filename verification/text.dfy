/**
 * Python string primitives the core relies on: `str.isspace`, `str.strip`,
 * `str.split()`, `str.splitlines()`, `" ".join`, ASCII `str.lower` and
 * substring search. Strings are sequences of code points.
 */
module Text {

  /** The characters for which Python's `str.isspace()` holds. */
  predicate IsSpace(c: char)
  {
    || '\t' <= c <= '\r'
    || '\U{1C}' <= c <= ' '
    || c == '\U{85}' || c == '\U{A0}' || c == '\U{1680}'
    || '\U{2000}' <= c <= '\U{200A}'
    || c == '\U{2028}' || c == '\U{2029}' || c == '\U{202F}' || c == '\U{205F}' || c == '\U{3000}'
  }

  /** The characters at which Python's `str.splitlines()` breaks a line. */
  predicate IsLineBreak(c: char)
  {
    || '\n' <= c <= '\r'
    || '\U{1C}' <= c <= '\U{1E}'
    || c == '\U{85}' || c == '\U{2028}' || c == '\U{2029}'
  }

  /** A set of characters to strip or search for: whitespace, line breaks, or an explicit set. */
  datatype CharClass = Spaces | Breaks | OneOf(chars: set<char>)

  predicate InClass(c: char, cs: CharClass)
  {
    match cs
    case Spaces => IsSpace(c)
    case Breaks => IsLineBreak(c)
    case OneOf(chars) => c in chars
  }

  predicate IsBlank(s: string) { forall i :: 0 <= i < |s| ==> IsSpace(s[i]) }

  predicate NoLineBreak(s: string) { forall i :: 0 <= i < |s| ==> !IsLineBreak(s[i]) }

  predicate IsDigit(c: char) { '0' <= c <= '9' }

  /** `s.lstrip(cs)`: drops the longest prefix made of characters in `cs`. */
  function TrimStart(s: string, cs: CharClass): (r: string)
    ensures |r| <= |s|
    ensures r == [] || !InClass(r[0], cs)
    ensures forall i :: 0 <= i < |s| - |r| ==> InClass(s[i], cs)
    decreases |s|
  {
    if s != [] && InClass(s[0], cs) then TrimStart(s[1..], cs) else s
  }

  /** What `lstrip` keeps is a suffix of its input. */
  lemma {:induction false} TrimStartSuffix(s: string, cs: CharClass)
    ensures TrimStart(s, cs) == s[|s| - |TrimStart(s, cs)|..]
    decreases |s|
  {
    if s != [] && InClass(s[0], cs) {
      TrimStartSuffix(s[1..], cs);
    }
  }

  /** `s.rstrip(cs)`: drops the longest suffix made of characters in `cs`. */
  function TrimEnd(s: string, cs: CharClass): (r: string)
    ensures |r| <= |s| && r == s[..|r|]
    ensures r == [] || !InClass(r[|r| - 1], cs)
    ensures forall i :: |r| <= i < |s| ==> InClass(s[i], cs)
    decreases |s|
  {
    if s != [] && InClass(s[|s| - 1], cs) then TrimEnd(s[..|s| - 1], cs) else s
  }

  /** `s.strip(cs)`. */
  function StripChars(s: string, cs: CharClass): (r: string)
    ensures |r| <= |s|
    ensures r == [] || (!InClass(r[0], cs) && !InClass(r[|r| - 1], cs))
  {
    TrimEnd(TrimStart(s, cs), cs)
  }

  /** `s.strip()` with no argument: strips whitespace. */
  function Strip(s: string): string { StripChars(s, Spaces) }

  /** Stripping keeps a contiguous middle part and drops only characters of `cs`. */
  lemma StripCharsSlice(s: string, cs: CharClass) returns (i: nat)
    ensures i + |StripChars(s, cs)| <= |s| && StripChars(s, cs) == s[i..i + |StripChars(s, cs)|]
    ensures forall k :: 0 <= k < i ==> InClass(s[k], cs)
    ensures forall k :: i + |StripChars(s, cs)| <= k < |s| ==> InClass(s[k], cs)
  {
    var t := TrimStart(s, cs);
    TrimStartSuffix(s, cs);
    i := |s| - |t|;
    var r := TrimEnd(t, cs);
    assert r == t[..|r|];
    assert t == s[i..];
    forall k | i + |r| <= k < |s| ensures InClass(s[k], cs) {
      assert s[k] == t[k - i];
    }
  }

  /** A string whose ends are not in `cs` is unchanged by stripping. */
  lemma StripCharsFixed(s: string, cs: CharClass)
    requires s == [] || (!InClass(s[0], cs) && !InClass(s[|s| - 1], cs))
    ensures StripChars(s, cs) == s
  {
  }

  /** Stripping is idempotent. */
  lemma StripCharsIdempotent(s: string, cs: CharClass)
    ensures StripChars(StripChars(s, cs), cs) == StripChars(s, cs)
  {
    StripCharsFixed(StripChars(s, cs), cs);
  }

  /** `rstrip` seen from the front: the first character stays unless everything goes. */
  lemma {:induction false} TrimEndCons(s: string, cs: CharClass)
    requires s != []
    ensures TrimEnd(s, cs) ==
      if TrimEnd(s[1..], cs) == [] && InClass(s[0], cs) then [] else [s[0]] + TrimEnd(s[1..], cs)
    decreases |s|
  {
    var t := s[1..];
    if t == [] {
      assert s == [s[0]];
    } else if InClass(s[|s| - 1], cs) {
      var u := s[..|s| - 1];
      assert u[1..] == t[..|t| - 1];
      assert TrimEnd(t, cs) == TrimEnd(t[..|t| - 1], cs);
      TrimEndCons(u, cs);
    } else {
      assert TrimEnd(t, cs) == t;
      assert s == [s[0]] + t;
    }
  }

  /** `lstrip` and `rstrip` commute. */
  lemma {:induction false} TrimCommute(s: string, cs: CharClass)
    ensures TrimEnd(TrimStart(s, cs), cs) == TrimStart(TrimEnd(s, cs), cs)
    decreases |s|
  {
    if s != [] {
      TrimEndCons(s, cs);
      if InClass(s[0], cs) {
        TrimCommute(s[1..], cs);
      }
    }
  }

  /** `rstrip` is determined by where it cuts: the prefix that ends outside `cs` with only `cs` after it. */
  lemma {:induction false} TrimEndUnique(s: string, cs: CharClass, n: nat)
    requires n <= |s|
    requires n == 0 || !InClass(s[n - 1], cs)
    requires forall i :: n <= i < |s| ==> InClass(s[i], cs)
    ensures TrimEnd(s, cs) == s[..n]
    decreases |s|
  {
    if n < |s| {
      var u := s[..|s| - 1];
      assert u[..n] == s[..n];
      assert n == 0 || u[n - 1] == s[n - 1];
      assert forall i :: n <= i < |u| ==> u[i] == s[i];
      TrimEndUnique(u, cs, n);
    } else {
      assert s[..n] == s;
    }
  }

  /** `rstrip` of `a + b` only reaches into `b` when `b` is not all stripped. */
  lemma TrimEndAppend(a: string, b: string, cs: CharClass)
    requires TrimEnd(b, cs) != []
    ensures TrimEnd(a + b, cs) == a + TrimEnd(b, cs)
  {
    var t := TrimEnd(b, cs);
    var ab := a + b;
    var n := |a| + |t|;
    assert ab[n - 1] == b[|t| - 1] == t[|t| - 1];
    forall i | n <= i < |ab|
      ensures InClass(ab[i], cs)
    {
      assert ab[i] == b[i - |a|];
    }
    TrimEndUnique(ab, cs, n);
    assert ab[..n] == a + t;
  }

  /** A string strips to the empty string exactly when it is blank. */
  lemma StripEmptyIffBlank(s: string)
    ensures Strip(s) == [] <==> IsBlank(s)
  {
    var i := StripCharsSlice(s, Spaces);
    if Strip(s) != [] {
      assert !IsSpace(s[i]);
    }
  }

  /** The longest prefix of `s` containing no whitespace. */
  function WordPrefix(s: string): (w: string)
    ensures |w| <= |s| && w == s[..|w|]
    ensures forall i :: 0 <= i < |w| ==> !IsSpace(w[i])
    ensures |w| < |s| ==> IsSpace(s[|w|])
    ensures s != [] && !IsSpace(s[0]) ==> |w| >= 1
    decreases |s|
  {
    if s == [] || IsSpace(s[0]) then [] else [s[0]] + WordPrefix(s[1..])
  }

  /** `s.split()`: the maximal runs of non-whitespace characters, in order. */
  function Words(s: string): seq<string>
    decreases |s|
  {
    var t := TrimStart(s, Spaces);
    if t == [] then [] else
      var w := WordPrefix(t);
      assert |w| >= 1 by { assert !IsSpace(t[0]); }
      [w] + Words(t[|w|..])
  }

  /** `len(s.split())`, counted as the positions where a word ends. */
  function WordCount(s: string): nat
  {
    if s == [] then 0
    else (if !IsSpace(s[0]) && (|s| == 1 || IsSpace(s[1])) then 1 else 0) + WordCount(s[1..])
  }

  /** Leading whitespace holds no word end. */
  lemma {:induction false} WordCountTrimStart(s: string)
    ensures WordCount(TrimStart(s, Spaces)) == WordCount(s)
    decreases |s|
  {
    if s != [] && IsSpace(s[0]) {
      WordCountTrimStart(s[1..]);
    }
  }

  /** A leading word accounts for exactly one word end. */
  lemma {:induction false} WordCountWordPrefix(t: string)
    requires t != [] && !IsSpace(t[0])
    ensures WordCount(t) == 1 + WordCount(t[|WordPrefix(t)|..])
    decreases |t|
  {
    var w := WordPrefix(t);
    if |t| > 1 && !IsSpace(t[1]) {
      WordCountWordPrefix(t[1..]);
      assert WordPrefix(t) == [t[0]] + WordPrefix(t[1..]);
      assert t[1..][|WordPrefix(t[1..])|..] == t[|w|..];
    } else {
      assert |w| == 1;
    }
  }

  /** The word-end count is the number of words `s.split()` yields. */
  lemma {:induction false} WordCountIsWords(s: string)
    ensures WordCount(s) == |Words(s)|
    decreases |s|
  {
    var t := TrimStart(s, Spaces);
    WordCountTrimStart(s);
    if t != [] {
      var w := WordPrefix(t);
      WordCountWordPrefix(t);
      WordCountIsWords(t[|w|..]);
    }
  }

  /** Index of the first character of `s[from..]` in `cs`, or `|s|`. */
  function IndexOfAny(s: string, cs: CharClass, from: nat): (i: nat)
    requires from <= |s|
    ensures from <= i <= |s|
    ensures forall k :: from <= k < i ==> !InClass(s[k], cs)
    ensures i < |s| ==> InClass(s[i], cs)
    decreases |s| - from
  {
    if from == |s| || InClass(s[from], cs) then from else IndexOfAny(s, cs, from + 1)
  }

  /**
   * `s.splitlines()`, except that a "\r\n" pair and a final break give an
   * extra empty line; empty lines carry no text, and every caller here
   * discards blank lines.
   */
  function Lines(s: string): (ls: seq<string>)
    ensures |ls| >= 1
    decreases |s|
  {
    var i := IndexOfAny(s, Breaks, 0);
    if i == |s| then [s] else [s[..i]] + Lines(s[i + 1..])
  }

  /** No line holds a break character. */
  lemma {:induction false} LinesHaveNoBreak(s: string)
    ensures forall k :: 0 <= k < |Lines(s)| ==> NoLineBreak(Lines(s)[k])
    decreases |s|
  {
    var i := IndexOfAny(s, Breaks, 0);
    if i < |s| {
      LinesHaveNoBreak(s[i + 1..]);
    }
  }

  /** Splitting `x + "\n" + y` where `x` holds no break gives `x`, then the lines of `y`. */
  lemma LinesCons(x: string, y: string)
    requires NoLineBreak(x)
    ensures Lines(x + "\n" + y) == [x] + Lines(y)
  {
    var s := x + "\n" + y;
    var i := IndexOfAny(s, Breaks, 0);
    assert forall k :: 0 <= k < |x| ==> s[k] == x[k];
    assert s[|x|] == '\n';
    assert i == |x|;
    assert s[..i] == x;
    assert s[i + 1..] == y;
  }

  /** A string without breaks is one line. */
  lemma LinesSingle(x: string)
    requires NoLineBreak(x)
    ensures Lines(x) == [x]
  {
  }

  /** `sep.join(parts)`. */
  function Join(parts: seq<string>, sep: string): string
  {
    if parts == [] then []
    else if |parts| == 1 then parts[0]
    else parts[0] + sep + Join(parts[1..], sep)
  }

  /** ASCII lower-casing of one character. */
  function LowerChar(c: char): char {
    if 'A' <= c <= 'Z' then (c as int - 'A' as int + 'a' as int) as char else c
  }

  /** `c * n`. */
  function Repeat(c: char, n: nat): (r: string)
    ensures |r| == n && forall i :: 0 <= i < n ==> r[i] == c
  {
    if n == 0 then [] else [c] + Repeat(c, n - 1)
  }

  /** `s.lower()`, restricted to ASCII letters. */
  function Lower(s: string): (r: string)
    ensures |r| == |s|
    ensures forall i :: 0 <= i < |s| ==> r[i] == LowerChar(s[i])
  {
    seq(|s|, i requires 0 <= i < |s| => LowerChar(s[i]))
  }

  predicate OccursAt(s: string, t: string, p: nat) { p + |t| <= |s| && s[p..p + |t|] == t }

  /** Python's `t in s[from:]` for strings. */
  function ContainsFrom(s: string, t: string, from: nat): (b: bool)
    ensures b <==> exists p :: from <= p && OccursAt(s, t, p)
    decreases |s| - from
  {
    if from + |t| > |s| then false
    else if s[from..from + |t|] == t then assert OccursAt(s, t, from); true
    else ContainsFrom(s, t, from + 1)
  }

  predicate Contains(s: string, t: string) { ContainsFrom(s, t, 0) }
}
