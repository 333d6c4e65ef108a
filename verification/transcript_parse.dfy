/**
 * The transcript reader of translate_and_dub.py: the body of a saved
 * transcript (the lines after its `=====` rule), timestamped lines
 * `[a s - b s] text` and `[a s] text`, the repair of missing windows, and the
 * fallback that cuts untimed text into sentences on a running clock.
 */
module Transcript {
  import opened Wrappers
  import opened Text
  import opened Segments

  /** Floor of the speech-rate estimate of an utterance, in seconds. */
  const MinEstimate: real := 1.2
  /** Assumed speech rate, in words per second. */
  const WordsPerSecond: real := 2.8
  /** Floor of a window read from, or inferred between, timestamps. */
  const MinTimedWindow: real := 0.2
  /** Words per block in the word-count fallback. */
  const WordsPerBlock: nat := 14
  /** Fewest `=` characters that make a header rule. */
  const MinRuleLength: nat := 10

  /** `_estimar_duracao`: the speech-rate estimate, never below 1.2 seconds. */
  function EstimateDuration(texto: string): (d: real)
    ensures d >= MinEstimate
    ensures d >= WordCount(texto) as real / WordsPerSecond
    ensures d == MinEstimate || d == WordCount(texto) as real / WordsPerSecond
  {
    Max(MinEstimate, WordCount(texto) as real / WordsPerSecond)
  }

  // ---------------------------------------------------------------------
  // Body of the file
  // ---------------------------------------------------------------------

  /** `re.match(r"^={10,}$", line.strip())`: a rule of at least ten `=`. */
  predicate IsRule(line: string) {
    var t := Strip(line);
    |t| >= MinRuleLength && forall i :: 0 <= i < |t| ==> t[i] == '='
  }

  /** The body lines contributed by `lines` once the header rule has been seen. */
  function BodyAfter(lines: seq<string>): seq<string>
  {
    if lines == [] then []
    else BodyLine(lines[0]) + BodyAfter(lines[1..])
  }

  /** What one line after the rule adds to the body. */
  function BodyLine(line: string): seq<string>
  {
    if IsRule(line) || Strip(line) == [] then [] else [Strip(line)]
  }

  /** The body lines of a file whose header rule has not been seen yet. */
  function BodyOf(lines: seq<string>): seq<string>
  {
    if lines == [] then []
    else if IsRule(lines[0]) then BodyAfter(lines[1..])
    else BodyOf(lines[1..])
  }

  lemma {:induction false} BodyAfterAppend(a: seq<string>, b: seq<string>)
    ensures BodyAfter(a + b) == BodyAfter(a) + BodyAfter(b)
  {
    if a == [] {
      assert a + b == b;
    } else {
      assert (a + b)[0] == a[0];
      assert (a + b)[1..] == a[1..] + b;
      BodyAfterAppend(a[1..], b);
    }
  }

  /** Every body line is stripped, non-blank and not a rule. */
  lemma {:induction false} BodyAfterLines(lines: seq<string>)
    ensures forall k :: 0 <= k < |BodyAfter(lines)| ==>
      var l := BodyAfter(lines)[k]; l != [] && Strip(l) == l && !IsRule(l)
  {
    if lines != [] {
      BodyAfterLines(lines[1..]);
      StripCharsIdempotent(lines[0], Spaces);
    }
  }

  /** None of `lines` is a rule. */
  predicate NoRule(lines: seq<string>)
  {
    lines == [] || (!IsRule(lines[0]) && NoRule(lines[1..]))
  }

  /**
   * The body is what follows the first rule: lines before it are dropped,
   * and a file without a rule has no body.
   */
  lemma {:induction false} BodyFollowsFirstRule(pre: seq<string>, rule: string, post: seq<string>)
    requires NoRule(pre)
    ensures BodyOf(pre) == []
    ensures IsRule(rule) ==> BodyOf(pre + [rule] + post) == BodyAfter(post)
  {
    if pre == [] {
      assert pre + [rule] + post == [rule] + post;
      assert ([rule] + post)[1..] == post;
    } else {
      BodyFollowsFirstRule(pre[1..], rule, post);
      assert (pre + [rule] + post)[1..] == pre[1..] + [rule] + post;
    }
  }

  lemma AppendAssoc<T>(a: seq<T>, b: seq<T>, c: seq<T>)
    ensures (a + b) + c == a + (b + c)
  {
  }

  /** One line of both readings. */
  lemma BodyStep(lines: seq<string>, i: nat)
    requires i < |lines|
    ensures BodyOf(lines[i..]) == if IsRule(lines[i]) then BodyAfter(lines[i + 1..]) else BodyOf(lines[i + 1..])
    ensures BodyAfter(lines[i..]) == BodyLine(lines[i]) + BodyAfter(lines[i + 1..])
  {
    assert lines[i..][0] == lines[i];
    assert lines[i..][1..] == lines[i + 1..];
  }

  /** `_extrair_corpo_transcricao`: the stripped non-blank lines after the first rule, rules excluded. */
  method ExtractBody(conteudo: string) returns (corpo: seq<string>)
    ensures corpo == BodyOf(Lines(conteudo))
  {
    corpo := BodyOfLines(Lines(conteudo));
  }

  /** The loop of `_extrair_corpo_transcricao` over the lines of the file. */
  method BodyOfLines(linhas: seq<string>) returns (corpo: seq<string>)
    ensures corpo == BodyOf(linhas)
  {
    corpo := [];
    var iniciou := false;
    for i := 0 to |linhas|
      invariant iniciou ==> corpo + BodyAfter(linhas[i..]) == BodyOf(linhas)
      invariant !iniciou ==> corpo == [] && BodyOf(linhas[i..]) == BodyOf(linhas)
    {
      BodyStep(linhas, i);
      var linha := linhas[i];
      ghost var rest := linhas[i + 1..];
      if IsRule(linha) {
        assert BodyLine(linha) == [];
        assert [] + BodyAfter(rest) == BodyAfter(rest);
        iniciou := true;
        continue;
      }
      assert Strip(linha) == [] ==> BodyLine(linha) == [] && [] + BodyAfter(rest) == BodyAfter(rest);
      if iniciou && Strip(linha) != [] {
        assert BodyLine(linha) == [Strip(linha)];
        AppendAssoc(corpo, [Strip(linha)], BodyAfter(rest));
        corpo := corpo + [Strip(linha)];
      }
    }
  }

  /** Every line of a body is stripped, non-blank and not a rule. */
  lemma {:induction false} BodyOfClean(lines: seq<string>)
    ensures forall k :: 0 <= k < |BodyOf(lines)| ==>
      var l := BodyOf(lines)[k]; l != [] && Strip(l) == l && !IsRule(l)
  {
    if lines != [] {
      if IsRule(lines[0]) {
        BodyAfterLines(lines[1..]);
      } else {
        BodyOfClean(lines[1..]);
      }
    }
  }

  // ---------------------------------------------------------------------
  // Timestamped lines
  // ---------------------------------------------------------------------

  predicate AllDigits(s: string) { forall i :: 0 <= i < |s| ==> IsDigit(s[i]) }

  /** Length of the run of ASCII digits at the start of `s`. */
  function LeadingDigits(s: string): (n: nat)
    ensures n <= |s| && AllDigits(s[..n])
    ensures n < |s| ==> !IsDigit(s[n])
  {
    if s != [] && IsDigit(s[0]) then 1 + LeadingDigits(s[1..]) else 0
  }

  /** The number a string of decimal digits denotes. */
  function DigitsValue(ds: string): nat
    requires AllDigits(ds)
  {
    if ds == [] then 0 else 10 * DigitsValue(ds[..|ds| - 1]) + (ds[|ds| - 1] as int - '0' as int)
  }

  function Pow10(n: nat): (p: nat)
    ensures p >= 1
  {
    if n == 0 then 1 else 10 * Pow10(n - 1)
  }

  /** `float("whole.frac")`, exactly; an empty `frac` means no fractional part. */
  function NumeralValue(whole: string, frac: string): real
    requires AllDigits(whole) && AllDigits(frac)
  {
    DigitsValue(whole) as real + DigitsValue(frac) as real / Pow10(|frac|) as real
  }

  /**
   * `(\d+(?:\.\d+)?)` at the start of `s`: the number read and what follows it.
   * The fraction is taken only when a digit follows the dot.
   */
  function ParseNumber(s: string): Option<(real, string)>
  {
    var n := LeadingDigits(s);
    if n == 0 then None
    else
      var after := s[n..];
      if |after| >= 2 && after[0] == '.' && IsDigit(after[1]) then
        var fraction := after[1..];
        var m := LeadingDigits(fraction);
        Some((NumeralValue(s[..n], fraction[..m]), fraction[m..]))
      else Some((NumeralValue(s[..n], ""), after))
  }

  /**
   * `(.*)$` on the rest of a line: matches unless a line feed occurs before
   * the last character; a final line feed is not part of the group.
   */
  function LineTail(r: string): Option<string>
  {
    if '\n' !in r then Some(r)
    else if r[|r| - 1] == '\n' && '\n' !in r[..|r| - 1] then Some(r[..|r| - 1])
    else None
  }

  /** `TIMESTAMP_RANGE_RE.match(line)`: start, end and the raw text group. */
  function MatchRange(line: string): Option<(real, real, string)>
  {
    if line == [] || line[0] != '[' then None
    else match ParseNumber(line[1..])
      case None => None
      case Some((a, r1)) =>
        if r1 == [] || r1[0] != 's' then None
        else
          var r2 := TrimStart(r1[1..], Spaces);
          if r2 == [] || r2[0] != '-' then None
          else match ParseNumber(TrimStart(r2[1..], Spaces))
            case None => None
            case Some((b, r3)) =>
              if |r3| < 2 || r3[..2] != "s]" then None
              else match LineTail(TrimStart(r3[2..], Spaces))
                case None => None
                case Some(t) => Some((a, b, t))
  }

  /** `TIMESTAMP_START_RE.match(line)`: start and the raw text group. */
  function MatchStart(line: string): Option<(real, string)>
  {
    if line == [] || line[0] != '[' then None
    else match ParseNumber(line[1..])
      case None => None
      case Some((a, r1)) =>
        if |r1| < 2 || r1[..2] != "s]" then None
        else match LineTail(TrimStart(r1[2..], Spaces))
          case None => None
          case Some(t) => Some((a, t))
  }

  /** A segment read from a line; its window is unknown (`None`) for a start-only line. */
  datatype Pending = Pending(text: string, start: real, duration: Option<real>)

  /**
   * The body of the first loop of `_segmentar_com_timestamps`, what one line
   * adds: the range pattern is tried first, then the start-only pattern; a
   * match whose text strips to nothing adds no segment.
   */
  function Pick(line: string): seq<Pending>
  {
    var mr := MatchRange(line);
    if mr.Some? then PickRange(mr.value.0, mr.value.1, mr.value.2)
    else var ms := MatchStart(line);
      if ms.Some? then PickStart(ms.value.0, ms.value.1) else []
  }

  /** The first loop of `_segmentar_com_timestamps`. */
  function Collected(lines: seq<string>): seq<Pending>
  {
    if lines == [] then [] else Pick(lines[0]) + Collected(lines[1..])
  }

  /** Reading keeps the order of the lines: the segments of `a + b` are those of `a`, then those of `b`. */
  lemma {:induction false} CollectedAppend(a: seq<string>, b: seq<string>)
    ensures Collected(a + b) == Collected(a) + Collected(b)
  {
    if a == [] {
      assert a + b == b;
    } else {
      assert (a + b)[0] == a[0];
      assert (a + b)[1..] == a[1..] + b;
      CollectedAppend(a[1..], b);
    }
  }

  /** Reading one more line appends what that line gives. */
  lemma CollectedSnoc(lines: seq<string>, i: nat)
    requires i < |lines|
    ensures Collected(lines[..i + 1]) == Collected(lines[..i]) + Pick(lines[i])
  {
    assert lines[..i + 1] == lines[..i] + [lines[i]];
    CollectedAppend(lines[..i], [lines[i]]);
    assert [lines[i]][1..] == [];
  }

  /** The window a pending segment ends up with. */
  function FilledDuration(p: seq<Pending>, i: nat): real
    requires i < |p|
  {
    match p[i].duration
    case Some(d) => d
    case None =>
      if i + 1 < |p| then Max(MinTimedWindow, p[i + 1].start - p[i].start)
      else EstimateDuration(p[i].text)
  }

  /** The second loop of `_segmentar_com_timestamps`: every window filled, order kept. */
  function Filled(p: seq<Pending>): seq<Segment>
  {
    seq(|p|, i requires 0 <= i < |p| => Segment(p[i].text, p[i].start, FilledDuration(p, i)))
  }

  /** What `_segmentar_com_timestamps` returns. */
  function Timed(lines: seq<string>): seq<Segment> { Filled(Collected(lines)) }

  /** Every segment read has non-empty text, and a window of at least 0.2 s when it has one. */
  lemma {:induction false} CollectedSegments(lines: seq<string>)
    ensures forall k :: 0 <= k < |Collected(lines)| ==>
      && Collected(lines)[k].text != []
      && (Collected(lines)[k].duration.Some? ==> Collected(lines)[k].duration.value >= MinTimedWindow)
  {
    if lines != [] {
      CollectedSegments(lines[1..]);
      var h: seq<Pending> := Pick(lines[0]);
      var t: seq<Pending> := Collected(lines[1..]);
      PickSegments(lines[0]);
      var c: seq<Pending> := h + t;
      assert Collected(lines) == c;
      forall k | 0 <= k < |c|
        ensures c[k].text != [] && (c[k].duration.Some? ==> c[k].duration.value >= MinTimedWindow)
      {
        if k < |h| {
          assert c[k] == h[k];
        } else {
          assert c[k] == t[k - |h|];
        }
      }
    }
  }

  /** A line adds at most one segment, with non-empty text and a window of at least 0.2 s when it has one. */
  lemma PickSegments(line: string)
    ensures |Pick(line)| <= 1
    ensures forall k :: 0 <= k < |Pick(line)| ==>
      && Pick(line)[k].text != []
      && (Pick(line)[k].duration.Some? ==> Pick(line)[k].duration.value >= MinTimedWindow)
  {
  }

  /**
   * Which pattern a line's segment comes from: a range line gives its
   * stripped text, its start and max(0.2, end - start); a start-only line
   * that is not a range line gives its stripped text and start with the
   * window unknown; a match whose text strips to nothing, or a line neither
   * pattern matches, gives nothing.
   */
  lemma PickPatterns(line: string)
    ensures MatchRange(line).Some? ==>
      var (a, b, t) := MatchRange(line).value;
      && (Pick(line) != [] <==> Strip(t) != [])
      && (Pick(line) != [] ==> Pick(line) == [Pending(Strip(t), a, Some(Max(MinTimedWindow, b - a)))])
    ensures MatchRange(line).None? && MatchStart(line).Some? ==>
      var (a, t) := MatchStart(line).value;
      && (Pick(line) != [] <==> Strip(t) != [])
      && (Pick(line) != [] ==> Pick(line) == [Pending(Strip(t), a, None)])
    ensures MatchRange(line).None? && MatchStart(line).None? ==> Pick(line) == []
  {
  }

  /**
   * Filling keeps text, start and order and every known window; a
   * start-only segment gets max(0.2, next start - start), or the
   * speech-rate estimate when it is the last one; so when every segment read
   * has text and any known window is at least 0.2 s, every filled window is too.
   */
  lemma FilledWindows(p: seq<Pending>)
    ensures |Filled(p)| == |p|
    ensures forall k :: 0 <= k < |p| ==> Filled(p)[k].text == p[k].text && Filled(p)[k].start == p[k].start
    ensures forall k :: 0 <= k < |p| && p[k].duration.Some? ==> Filled(p)[k].duration == p[k].duration.value
    ensures forall k :: 0 <= k && k + 1 < |p| && p[k].duration.None? ==>
      Filled(p)[k].duration == Max(MinTimedWindow, p[k + 1].start - p[k].start)
    ensures |p| > 0 && p[|p| - 1].duration.None? ==>
      Filled(p)[|p| - 1].duration == EstimateDuration(p[|p| - 1].text)
    ensures (forall k :: 0 <= k < |p| && p[k].duration.Some? ==> p[k].duration.value >= MinTimedWindow) ==>
      forall k :: 0 <= k < |p| ==> Filled(p)[k].duration >= MinTimedWindow
  {
  }

  /** Every timed segment has non-empty text and a window of at least 0.2 s. */
  lemma TimedWindows(lines: seq<string>)
    ensures forall k :: 0 <= k < |Timed(lines)| ==> Timed(lines)[k].text != [] && Timed(lines)[k].duration >= MinTimedWindow
  {
    CollectedSegments(lines);
    FilledWindows(Collected(lines));
  }

  function PickRange(a: real, b: real, t: string): seq<Pending>
  {
    if Strip(t) != [] then [Pending(Strip(t), a, Some(Max(MinTimedWindow, b - a)))] else []
  }
  function PickStart(a: real, t: string): seq<Pending>
  {
    if Strip(t) != [] then [Pending(Strip(t), a, None)] else []
  }

  /** `_segmentar_com_timestamps`: reads the timed lines, then fills the missing windows in place. */
  method SegmentTimed(linhas: seq<string>) returns (segmentos: seq<Segment>)
    ensures segmentos == Timed(linhas)
  {
    var pend := CollectTimed(linhas);
    if pend == [] {
      return [];
    }
    segmentos := FillWindows(pend);
  }

  /** The first loop of `_segmentar_com_timestamps`: the segments read from each line, in order. */
  method CollectTimed(linhas: seq<string>) returns (pend: seq<Pending>)
    ensures pend == Collected(linhas)
  {
    pend := [];
    for i := 0 to |linhas|
      invariant pend == Collected(linhas[..i])
    {
      var novos := Pick(linhas[i]);
      CollectedSnoc(linhas, i);
      pend := pend + novos;
    }
    assert linhas[..|linhas|] == linhas;
  }

  /**
   * The second loop of `_segmentar_com_timestamps`: each start-only segment
   * gets max(0.2, next start - start), the last one the speech-rate estimate.
   */
  method FillWindows(pendentes: seq<Pending>) returns (segmentos: seq<Segment>)
    ensures segmentos == Filled(pendentes)
  {
    var pend := pendentes;
    for i := 0 to |pend|
      invariant |pend| == |pendentes|
      invariant forall j :: 0 <= j < i ==> pend[j] == pendentes[j].(duration := Some(FilledDuration(pendentes, j)))
      invariant forall j :: i <= j < |pend| ==> pend[j] == pendentes[j]
    {
      if pend[i].duration.Some? {
        continue;
      }
      var duracao: real;
      if i + 1 < |pend| {
        var nextStart := pend[i + 1].start;
        duracao := Max(MinTimedWindow, nextStart - pend[i].start);
      } else {
        duracao := EstimateDuration(pend[i].text);
      }
      assert duracao == FilledDuration(pendentes, i);
      pend := pend[i := pend[i].(duration := Some(duracao))];
    }
    segmentos := seq(|pend|, i requires 0 <= i < |pend| => Segment(pend[i].text, pend[i].start, pend[i].duration.value));
    assert forall j :: 0 <= j < |segmentos| ==> segmentos[j] == Filled(pendentes)[j];
  }

  // ---------------------------------------------------------------------
  // Untimed text
  // ---------------------------------------------------------------------

  predicate IsSentenceEnd(c: char) { c == '.' || c == '!' || c == '?' }

  /** A split point of `(?<=[.!?])\s+`: `.`, `!` or `?` just before, whitespace at `q`. */
  predicate BreakAt(t: string, q: nat)
  {
    1 <= q < |t| && IsSentenceEnd(t[q - 1]) && IsSpace(t[q])
  }

  /** The first split point at or after `i` for `(?<=[.!?])\s+`, or `|t|`. */
  function SentenceBreak(t: string, i: nat): (p: nat)
    requires 1 <= i
    ensures i <= p || p == |t|
    ensures p <= |t| || p == i
    ensures p < |t| ==> BreakAt(t, p)
    ensures forall q :: i <= q < p ==> !BreakAt(t, q)
    decreases |t| - i
  {
    if i >= |t| then |t|
    else if IsSentenceEnd(t[i - 1]) && IsSpace(t[i]) then i
    else SentenceBreak(t, i + 1)
  }

  /** The first position at or after `p` that is not whitespace, or `|t|`: the end of the greedy `\s+`. */
  function SkipSpaces(t: string, p: nat): (q: nat)
    requires p <= |t|
    ensures p <= q <= |t|
    ensures p < |t| && IsSpace(t[p]) ==> q > p
    ensures forall j :: p <= j < q ==> IsSpace(t[j])
    ensures q < |t| ==> !IsSpace(t[q])
    decreases |t| - p
  {
    if p < |t| && IsSpace(t[p]) then SkipSpaces(t, p + 1) else p
  }

  /** `re.split(r"(?<=[.!?])\s+", t)`. */
  function SplitSentences(t: string): (pieces: seq<string>)
    ensures |pieces| >= 1
    ensures t != [] ==> pieces[0] != [] && pieces[0][0] == t[0]
    decreases |t|
  {
    var p := SentenceBreak(t, 1);
    if p >= |t| then [t]
    else [t[..p]] + SplitSentences(t[SkipSpaces(t, p)..])
  }

  /** The whitespace runs the split cuts at, in order. */
  function SplitGaps(t: string): seq<string>
    decreases |t|
  {
    var p := SentenceBreak(t, 1);
    if p >= |t| then []
    else [t[p..SkipSpaces(t, p)]] + SplitGaps(t[SkipSpaces(t, p)..])
  }

  /** The pieces with each gap put back after its piece. */
  function Interleave(pieces: seq<string>, gaps: seq<string>): string
    requires |pieces| == |gaps| + 1
  {
    if gaps == [] then pieces[0] else pieces[0] + gaps[0] + Interleave(pieces[1..], gaps[1..])
  }

  /** One cut of the split: the first piece, its whitespace run, and the split of the rest. */
  lemma SplitStep(t: string)
    requires SentenceBreak(t, 1) < |t|
    ensures var p := SentenceBreak(t, 1);
      var q := SkipSpaces(t, p);
      && SplitSentences(t) == [t[..p]] + SplitSentences(t[q..])
      && SplitGaps(t) == [t[p..q]] + SplitGaps(t[q..])
  {
  }

  predicate Unbroken(s: string) { forall q :: 0 <= q < |s| ==> !BreakAt(s, q) }

  predicate EndsSentence(s: string) { s != [] && IsSentenceEnd(s[|s| - 1]) }

  predicate AllSpace(s: string) { forall j :: 0 <= j < |s| ==> IsSpace(s[j]) }

  /**
   * Pieces and cuts as `re.split(r"(?<=[.!?])\s+", t)` leaves them: one cut
   * fewer than pieces, no piece holding a split point, every piece before a
   * cut ending in `.`, `!` or `?`, every cut a non-empty whitespace run, and
   * every piece after a cut empty or starting with a non-space, so that each
   * cut is a maximal run.
   */
  predicate WellCut(ps: seq<string>, gs: seq<string>)
  {
    && |ps| == |gs| + 1
    && (forall k :: 0 <= k < |ps| ==> Unbroken(ps[k]))
    && (forall k :: 0 <= k < |gs| ==> EndsSentence(ps[k]) && gs[k] != [] && AllSpace(gs[k]))
    && (forall k :: 0 < k < |ps| ==> ps[k] == [] || !IsSpace(ps[k][0]))
  }

  lemma WellCutCons(piece: string, gap: string, ps: seq<string>, gs: seq<string>)
    requires WellCut(ps, gs)
    requires Unbroken(piece) && EndsSentence(piece) && gap != [] && AllSpace(gap)
    requires ps[0] == [] || !IsSpace(ps[0][0])
    ensures WellCut([piece] + ps, [gap] + gs)
  {
    var ps', gs' := [piece] + ps, [gap] + gs;
    forall k | 0 < k < |ps'| ensures ps'[k] == ps[k - 1] {}
    forall k | 0 < k < |gs'| ensures gs'[k] == gs[k - 1] {}
  }

  lemma InterleaveCons(piece: string, gap: string, ps: seq<string>, gs: seq<string>)
    requires |ps| == |gs| + 1
    ensures Interleave([piece] + ps, [gap] + gs) == piece + gap + Interleave(ps, gs)
  {
    assert ([piece] + ps)[1..] == ps;
    assert ([gap] + gs)[1..] == gs;
  }

  /** Text without a split point after position 0 holds none at all. */
  lemma NoCutUnbroken(t: string)
    requires SentenceBreak(t, 1) >= |t|
    ensures Unbroken(t)
  {
    forall q | 0 <= q < |t| ensures !BreakAt(t, q) {
      if 1 <= q {
        assert q < SentenceBreak(t, 1);
      }
    }
  }

  /** The piece before the first cut ends a sentence and holds no split point. */
  lemma CutPiece(t: string)
    requires SentenceBreak(t, 1) < |t|
    ensures Unbroken(t[..SentenceBreak(t, 1)]) && EndsSentence(t[..SentenceBreak(t, 1)])
  {
    var p := SentenceBreak(t, 1);
    var piece := t[..p];
    forall r | 0 <= r < |piece| ensures !BreakAt(piece, r) {
      if BreakAt(piece, r) {
        assert BreakAt(t, r);
      }
    }
    assert BreakAt(t, p);
  }

  lemma AllSpaceSlice(t: string, p: nat, q: nat)
    requires p <= q <= |t|
    requires forall j :: p <= j < q ==> IsSpace(t[j])
    ensures AllSpace(t[p..q])
  {
    forall j | 0 <= j < q - p ensures IsSpace(t[p..q][j]) {
      assert t[p..q][j] == t[p + j];
    }
  }

  lemma SliceThree(t: string, p: nat, q: nat)
    requires p <= q <= |t|
    ensures t == t[..p] + t[p..q] + t[q..]
  {
  }

  /** The first cut is a non-empty whitespace run followed by the end or a non-space. */
  lemma CutGap(t: string)
    requires SentenceBreak(t, 1) < |t|
    ensures var p := SentenceBreak(t, 1);
      var q := SkipSpaces(t, p);
      && t[p..q] != [] && AllSpace(t[p..q])
      && (q == |t| || !IsSpace(t[q]))
  {
    var p := SentenceBreak(t, 1);
    assert BreakAt(t, p);
    AllSpaceSlice(t, p, SkipSpaces(t, p));
  }

  /** The pieces and cuts of the split are well cut. */
  lemma {:induction false} SplitWellCut(t: string)
    ensures WellCut(SplitSentences(t), SplitGaps(t))
    decreases |t|
  {
    var p := SentenceBreak(t, 1);
    if p >= |t| {
      NoCutUnbroken(t);
      assert SplitSentences(t) == [t] && SplitGaps(t) == [];
    } else {
      var q := SkipSpaces(t, p);
      CutPiece(t);
      CutGap(t);
      SplitStep(t);
      SplitWellCut(t[q..]);
      WellCutCons(t[..p], t[p..q], SplitSentences(t[q..]), SplitGaps(t[q..]));
    }
  }

  /** The pieces with their cuts put back rebuild the text. */
  lemma {:induction false} SplitRebuilds(t: string)
    ensures |SplitSentences(t)| == |SplitGaps(t)| + 1
    ensures Interleave(SplitSentences(t), SplitGaps(t)) == t
    decreases |t|
  {
    var p := SentenceBreak(t, 1);
    if p < |t| {
      var q := SkipSpaces(t, p);
      var rest := t[q..];
      SplitStep(t);
      SplitRebuilds(rest);
      InterleaveCons(t[..p], t[p..q], SplitSentences(rest), SplitGaps(rest));
      SliceThree(t, p, q);
    }
  }

  /**
   * What `re.split(r"(?<=[.!?])\s+", t)` promises: the pieces and cuts are
   * well cut, and the pieces with their cuts put back rebuild the text.
   */
  lemma SplitSentencesPieces(t: string)
    ensures WellCut(SplitSentences(t), SplitGaps(t))
    ensures Interleave(SplitSentences(t), SplitGaps(t)) == t
  {
    SplitWellCut(t);
    SplitRebuilds(t);
  }

  /** `[s.strip() for s in pieces if s.strip()]`. */
  function StrippedNonBlank(pieces: seq<string>): seq<string>
  {
    if pieces == [] then []
    else (if Strip(pieces[0]) != [] then [Strip(pieces[0])] else []) + StrippedNonBlank(pieces[1..])
  }

  /** The sentences of the untimed text. */
  function Sentences(t: string): seq<string> { StrippedNonBlank(SplitSentences(t)) }

  /**
   * The word-count fallback is never taken: a stripped non-empty text
   * always yields at least one sentence, because the first piece of the
   * split starts with the text's first, non-blank, character.
   */
  lemma SentencesNeverEmpty(t: string)
    requires t != [] && !IsSpace(t[0])
    ensures Sentences(t) != []
  {
    var pieces := SplitSentences(t);
    var first := pieces[0];
    assert !IsBlank(first) by { assert !IsSpace(first[0]); }
    StripEmptyIffBlank(first);
  }

  /** The blocks the fallback cuts a word list into. */
  function Chunks(words: seq<string>): seq<seq<string>>
    decreases |words|
  {
    if words == [] then []
    else if |words| <= WordsPerBlock then [words]
    else [words[..WordsPerBlock]] + Chunks(words[WordsPerBlock..])
  }

  function Flatten(blocks: seq<seq<string>>): seq<string>
  {
    if blocks == [] then [] else blocks[0] + Flatten(blocks[1..])
  }

  lemma {:induction false} FlattenAppend(a: seq<seq<string>>, b: seq<seq<string>>)
    ensures Flatten(a + b) == Flatten(a) + Flatten(b)
  {
    if a == [] {
      assert a + b == b;
    } else {
      assert (a + b)[1..] == a[1..] + b;
      FlattenAppend(a[1..], b);
    }
  }

  lemma {:induction false} ChunksAppend(a: seq<string>, b: seq<string>, n: nat)
    requires |a| == WordsPerBlock * n
    ensures Chunks(a + b) == Chunks(a) + Chunks(b)
    decreases n
  {
    if a == [] {
      assert a + b == b;
    } else if b == [] {
      assert a + b == a;
    } else {
      assert (a + b)[..WordsPerBlock] == a[..WordsPerBlock];
      assert (a + b)[WordsPerBlock..] == a[WordsPerBlock..] + b;
      ChunksAppend(a[WordsPerBlock..], b, n - 1);
    }
  }

  /**
   * The blocks concatenate to the words; each holds 1 to 14 words, and all
   * but the last hold exactly 14.
   */
  lemma {:induction false} ChunksShape(words: seq<string>)
    ensures Flatten(Chunks(words)) == words
    ensures forall k :: 0 <= k < |Chunks(words)| ==> 1 <= |Chunks(words)[k]| <= WordsPerBlock
    ensures forall k :: 0 <= k < |Chunks(words)| - 1 ==> |Chunks(words)[k]| == WordsPerBlock
    decreases |words|
  {
    if |words| > WordsPerBlock {
      var rest := words[WordsPerBlock..];
      ChunksShape(rest);
      assert Chunks(words) == [words[..WordsPerBlock]] + Chunks(rest);
      assert words == words[..WordsPerBlock] + rest;
    } else if words != [] {
      assert Flatten([words]) == words + Flatten([]);
    }
  }

  /**
   * The fallback loop of `_segmentar_sem_timestamps`: closes a block each
   * time it reaches 14 words, then keeps the last partial block.
   */
  method ChunkWords(palavras: seq<string>) returns (blocos: seq<seq<string>>)
    ensures blocos == Chunks(palavras)
  {
    blocos := [];
    var bloco: seq<string> := [];
    ghost var closed := 0;
    for i := 0 to |palavras|
      invariant closed + |bloco| == i && |bloco| < WordsPerBlock
      invariant bloco == palavras[closed..i]
      invariant closed == WordsPerBlock * |blocos|
      invariant blocos == Chunks(palavras[..closed])
    {
      assert palavras[closed..i + 1] == palavras[closed..i] + [palavras[i]];
      bloco := bloco + [palavras[i]];
      if |bloco| >= WordsPerBlock {
        assert palavras[..i + 1] == palavras[..closed] + bloco;
        ChunksAppend(palavras[..closed], bloco, |blocos|);
        assert Chunks(bloco) == [bloco];
        blocos := blocos + [bloco];
        bloco := [];
        closed := i + 1;
      }
    }
    assert palavras == palavras[..closed] + bloco;
    ChunksAppend(palavras[..closed], bloco, |blocos|);
    if bloco != [] {
      assert Chunks(bloco) == [bloco];
      blocos := blocos + [bloco];
    } else {
      assert blocos + Chunks(bloco) == blocos;
    }
  }

  /** Segments for consecutive sentences from time `t0`, each as long as its estimate. */
  function Schedule(sentences: seq<string>, t0: real): seq<Segment>
  {
    if sentences == [] then []
    else [Segment(sentences[0], t0, EstimateDuration(sentences[0]))] + Schedule(sentences[1..], t0 + EstimateDuration(sentences[0]))
  }

  /** One sentence of the schedule. */
  lemma ScheduleStep(sentences: seq<string>, k: nat, t: real)
    requires k < |sentences|
    ensures Schedule(sentences[k..], t) ==
      [Segment(sentences[k], t, EstimateDuration(sentences[k]))] + Schedule(sentences[k + 1..], t + EstimateDuration(sentences[k]))
  {
    assert sentences[k..][0] == sentences[k];
    assert sentences[k..][1..] == sentences[k + 1..];
  }

  /** Scheduling sentence `k` after `done` moves it from the pending schedule to the finished part. */
  lemma ScheduleAdvance(done: seq<Segment>, sentences: seq<string>, k: nat, t: real)
    requires k < |sentences|
    ensures done + Schedule(sentences[k..], t) ==
      (done + [Segment(sentences[k], t, EstimateDuration(sentences[k]))]) + Schedule(sentences[k + 1..], t + EstimateDuration(sentences[k]))
  {
    var d := EstimateDuration(sentences[k]);
    ScheduleStep(sentences, k, t);
    AppendAssoc(done, [Segment(sentences[k], t, d)], Schedule(sentences[k + 1..], t + d));
  }

  /**
   * The running clock: segment k holds sentence k, the first starts at `t0`,
   * each lasts its speech-rate estimate, and each starts where the previous one ends.
   */
  lemma {:induction false} ScheduleIsCumulative(sentences: seq<string>, t0: real)
    ensures |Schedule(sentences, t0)| == |sentences|
    ensures |sentences| > 0 ==> Schedule(sentences, t0)[0].start == t0
    ensures forall k :: 0 <= k < |sentences| ==>
      Schedule(sentences, t0)[k].text == sentences[k]
      && Schedule(sentences, t0)[k].duration == EstimateDuration(sentences[k])
    ensures forall k :: 0 <= k && k + 1 < |sentences| ==>
      Schedule(sentences, t0)[k + 1].start == Schedule(sentences, t0)[k].start + Schedule(sentences, t0)[k].duration
  {
    if sentences != [] {
      var d := EstimateDuration(sentences[0]);
      ScheduleIsCumulative(sentences[1..], t0 + d);
      var s := Schedule(sentences, t0);
      var rest := Schedule(sentences[1..], t0 + d);
      assert s == [Segment(sentences[0], t0, d)] + rest;
      forall k | 0 <= k && k + 1 < |sentences|
        ensures s[k + 1].start == s[k].start + s[k].duration
      {
        if k > 0 {
          assert s[k] == rest[k - 1] && s[k + 1] == rest[k];
        }
      }
    }
  }

  /** The sentences (or, failing that, the word blocks) of the untimed fallback. */
  function UntimedSentences(texto: string): seq<string>
  {
    var sentences := Sentences(texto);
    if sentences != [] then sentences
    else JoinBlocks(Chunks(Words(texto)))
  }

  /** `" ".join(block)` for every block. */
  function JoinBlocks(blocks: seq<seq<string>>): seq<string>
  {
    if blocks == [] then [] else [Join(blocks[0], " ")] + JoinBlocks(blocks[1..])
  }

  /** What `_segmentar_sem_timestamps` returns. */
  function Untimed(lines: seq<string>): seq<Segment>
  {
    var texto := Strip(Join(lines, " "));
    if texto == [] then [] else Schedule(UntimedSentences(texto), 0.0)
  }

  /**
   * A non-blank text gives one segment per sentence, laid end to end from
   * time 0, each as long as its speech-rate estimate; a blank one gives none.
   */
  lemma UntimedSchedule(lines: seq<string>)
    ensures Strip(Join(lines, " ")) == [] <==> Untimed(lines) == []
    ensures Strip(Join(lines, " ")) != [] ==> Untimed(lines) == Schedule(Sentences(Strip(Join(lines, " "))), 0.0)
    ensures |Untimed(lines)| > 0 ==> Untimed(lines)[0].start == 0.0
    ensures forall k :: 0 <= k < |Untimed(lines)| ==> Untimed(lines)[k].duration == EstimateDuration(Untimed(lines)[k].text)
    ensures forall k :: 0 <= k && k + 1 < |Untimed(lines)| ==>
      Untimed(lines)[k + 1].start == Untimed(lines)[k].start + Untimed(lines)[k].duration
  {
    var texto := Strip(Join(lines, " "));
    if texto != [] {
      SentencesNeverEmpty(texto);
      ScheduleIsCumulative(Sentences(texto), 0.0);
    }
  }

  /**
   * `_segmentar_sem_timestamps`: joins the lines, cuts the text into
   * sentences and lays them end to end from time 0.
   */
  method SegmentUntimed(linhas: seq<string>) returns (segmentos: seq<Segment>)
    ensures segmentos == Untimed(linhas)
  {
    var texto := Strip(Join(linhas, " "));
    if texto == [] {
      return [];
    }
    var sentencas := Sentences(texto);
    if sentencas == [] {
      var blocos := ChunkWords(Words(texto));
      sentencas := JoinBlocks(blocos);
    }
    assert sentencas == UntimedSentences(texto);
    segmentos := ScheduleSentences(sentencas);
  }

  /** The clock loop of `_segmentar_sem_timestamps`. */
  method ScheduleSentences(sentencas: seq<string>) returns (segmentos: seq<Segment>)
    ensures segmentos == Schedule(sentencas, 0.0)
  {
    segmentos := [];
    var tempoAtual := 0.0;
    for k := 0 to |sentencas|
      invariant segmentos + Schedule(sentencas[k..], tempoAtual) == Schedule(sentencas, 0.0)
    {
      ScheduleAdvance(segmentos, sentencas, k, tempoAtual);
      var duracao := EstimateDuration(sentencas[k]);
      segmentos := segmentos + [Segment(sentencas[k], tempoAtual, duracao)];
      tempoAtual := tempoAtual + duracao;
    }
    assert sentencas[|sentencas|..] == [];
    assert segmentos + [] == segmentos;
  }

  // ---------------------------------------------------------------------
  // Loading
  // ---------------------------------------------------------------------

  /** What `_carregar_segmentos_transcricao` returns for a file's content. */
  function Loaded(conteudo: string): seq<Segment>
  {
    var body := BodyOf(Lines(conteudo));
    if Timed(body) != [] then Timed(body) else Untimed(body)
  }

  /**
   * `_carregar_segmentos_transcricao`, given the file's content: the
   * timestamped reading when it yields any segment, the untimed one otherwise.
   */
  method LoadTranscript(conteudo: string) returns (segmentos: seq<Segment>)
    ensures segmentos == Loaded(conteudo)
    ensures Timed(BodyOf(Lines(conteudo))) != [] ==> segmentos == Timed(BodyOf(Lines(conteudo)))
    ensures Timed(BodyOf(Lines(conteudo))) == [] ==> segmentos == Untimed(BodyOf(Lines(conteudo)))
  {
    var linhas := ExtractBody(conteudo);
    segmentos := SegmentTimed(linhas);
    if segmentos != [] {
      return;
    }
    segmentos := SegmentUntimed(linhas);
  }
}
