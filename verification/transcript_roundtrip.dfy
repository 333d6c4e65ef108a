/**
 * The transcript files the two tools write: `translate_and_dub.py` after
 * translating, and `youtube_tool.py` after fetching captions. Each holds
 * header lines, a rule of sixty `=`, an empty line, then one
 * `[start s - end s] text` line per segment. Loading such a file gives
 * back one segment per written line, in order.
 */
module TranscriptWriter {
  import opened Wrappers
  import opened Text
  import opened Segments
  import opened Transcript

  /**
   * A number as `{x:.2f}` renders it: `whole.frac`, with no dot when `frac`
   * is empty. Rounding a float to two places is not modelled; the writer
   * is given the digits.
   */
  datatype Numeral = Numeral(whole: string, frac: string)

  predicate ValidNumeral(n: Numeral) { n.whole != [] && AllDigits(n.whole) && AllDigits(n.frac) }

  function Render(n: Numeral): string
  {
    if n.frac == [] then n.whole else n.whole + "." + n.frac
  }

  /** The value the digits stand for. */
  function Value(n: Numeral): real
    requires ValidNumeral(n)
  {
    NumeralValue(n.whole, n.frac)
  }

  /** One written segment: the rendered start and end of its window, and its text. */
  datatype Entry = Entry(start: Numeral, end: Numeral, text: string)

  /** Digits for both times, and a text with something to say and no line break in it. */
  predicate ValidEntry(e: Entry)
  {
    ValidNumeral(e.start) && ValidNumeral(e.end) && !IsBlank(e.text) && NoLineBreak(e.text)
  }

  predicate AllValid(es: seq<Entry>) { forall k :: 0 <= k < |es| ==> ValidEntry(es[k]) }

  /** `f"[{a}s - {b}s] {t}"`, a written line. */
  function Line(a: Numeral, b: Numeral, t: string): string
  {
    "[" + (Render(a) + ("s" + (" " + ("-" + (" " + (Render(b) + ("s]" + (" " + t))))))))
  }

  /** `f"[{start:.2f}s - {fim:.2f}s] {texto}"`. */
  function FormatEntry(e: Entry): string { Line(e.start, e.end, e.text) }

  /** The segment lines, each followed by a line feed. */
  function JoinEntries(es: seq<Entry>): string
  {
    if es == [] then "" else FormatEntry(es[0]) + "\n" + JoinEntries(es[1..])
  }

  /** `"=" * 60`. */
  const RuleWidth: nat := 60
  const Rule: string := Repeat('=', RuleWidth)

  /** Each header line followed by a line feed. */
  function JoinLines(ls: seq<string>): string
  {
    if ls == [] then "" else ls[0] + "\n" + JoinLines(ls[1..])
  }

  /** The content of a transcript file: the header lines, the rule and an empty line, the segments. */
  function WriteTranscript(header: seq<string>, es: seq<Entry>): string
  {
    JoinLines(header) + (Rule + "\n\n" + JoinEntries(es))
  }

  const TranslationTitle: string := "Transcrição " + ("Traduzida " + ("para " + ("Português " + "(PT-BR)")))

  /** The file `translate_and_dub.py` writes for the translated segments. */
  function TranslationFile(es: seq<Entry>): string
  {
    WriteTranscript([TranslationTitle], es)
  }

  /** The file `_salvar_transcricao` writes for a video's captions. */
  function CaptionFile(titulo: string, idiomaLabel: string, es: seq<Entry>): string
  {
    WriteTranscript(["Transcrição: " + titulo, "Idioma: " + idiomaLabel], es)
  }

  /** The segment a written line stands for: its stripped text, its start, its window of at least 0.2 s. */
  function SegmentOf(e: Entry): Segment
    requires ValidEntry(e)
  {
    Segment(Strip(e.text), Value(e.start), Max(MinTimedWindow, Value(e.end) - Value(e.start)))
  }

  function Expected(es: seq<Entry>): seq<Segment>
    requires AllValid(es)
  {
    seq(|es|, k requires 0 <= k < |es| => SegmentOf(es[k]))
  }

  /** What the reader collects from a written line: its window is known. */
  function PendingOf(e: Entry): Pending
    requires ValidEntry(e)
  {
    Pending(Strip(e.text), Value(e.start), Some(Max(MinTimedWindow, Value(e.end) - Value(e.start))))
  }

  function PendingsOf(es: seq<Entry>): seq<Pending>
    requires AllValid(es)
  {
    if es == [] then [] else [PendingOf(es[0])] + PendingsOf(es[1..])
  }

  // ---------------------------------------------------------------------
  // Reading one line back
  // ---------------------------------------------------------------------

  lemma {:induction false} LeadingDigitsAppend(ds: string, x: string)
    requires AllDigits(ds)
    requires x == [] || !IsDigit(x[0])
    ensures LeadingDigits(ds + x) == |ds|
  {
    if ds != [] {
      assert (ds + x)[0] == ds[0];
      assert (ds + x)[1..] == ds[1..] + x;
      LeadingDigitsAppend(ds[1..], x);
    } else {
      assert ds + x == x;
    }
  }

  /** The number pattern reads a rendered numeral back exactly, up to the character after it. */
  lemma ParseRendered(n: Numeral, x: string)
    requires ValidNumeral(n)
    requires x != [] && !IsDigit(x[0]) && x[0] != '.'
    ensures ParseNumber(Render(n) + x) == Some((Value(n), x))
  {
    if n.frac == [] {
      ParseWhole(n.whole, x);
    } else {
      assert Render(n) + x == n.whole + ("." + (n.frac + x));
      ParseFraction(n.whole, n.frac, x);
    }
  }

  /** A whole numeral followed by a non-digit, non-dot character. */
  lemma ParseWhole(whole: string, x: string)
    requires whole != [] && AllDigits(whole)
    requires x != [] && !IsDigit(x[0]) && x[0] != '.'
    ensures ParseNumber(whole + x) == Some((NumeralValue(whole, ""), x))
  {
    var s := whole + x;
    LeadingDigitsAppend(whole, x);
    assert s[..|whole|] == whole;
    assert s[|whole|..] == x;
  }

  /** A numeral with a fraction followed by a non-digit character. */
  lemma ParseFraction(whole: string, frac: string, x: string)
    requires whole != [] && AllDigits(whole) && frac != [] && AllDigits(frac)
    requires x != [] && !IsDigit(x[0])
    ensures ParseNumber(whole + ("." + (frac + x))) == Some((NumeralValue(whole, frac), x))
  {
    var after := "." + (frac + x);
    var s := whole + after;
    LeadingDigitsAppend(whole, after);
    assert s[..|whole|] == whole;
    assert s[|whole|..] == after;
    assert after[1..] == frac + x;
    LeadingDigitsAppend(frac, x);
    assert (frac + x)[..|frac|] == frac;
    assert (frac + x)[|frac|..] == x;
  }

  /** `rstrip` of a written line only reaches into its text. */
  lemma TrimEndLine(a: Numeral, b: Numeral, t: string)
    requires TrimEnd(t, Spaces) != []
    ensures TrimEnd(Line(a, b, t), Spaces) == Line(a, b, TrimEnd(t, Spaces))
  {
    var z := "s]" + (" " + t);
    var y := " " + (Render(b) + z);
    var x := "s" + (" " + ("-" + y));
    TrimEndAppend(" ", t, Spaces);
    TrimEndAppend("s]", " " + t, Spaces);
    TrimEndAppend(Render(b), z, Spaces);
    TrimEndAppend(" ", Render(b) + z, Spaces);
    TrimEndAppend("-", y, Spaces);
    TrimEndAppend(" ", "-" + y, Spaces);
    TrimEndAppend("s", " " + ("-" + y), Spaces);
    TrimEndAppend(Render(a), x, Spaces);
    TrimEndAppend("[", Render(a) + x, Spaces);
  }

  /** The stamp survives `strip`; only the text's trailing spaces go. */
  lemma StripFormatted(e: Entry)
    requires ValidEntry(e)
    ensures Strip(FormatEntry(e)) == Line(e.start, e.end, TrimEnd(e.text, Spaces))
  {
    var line := FormatEntry(e);
    assert line[0] == '[';
    assert TrimStart(line, Spaces) == line;
    TrimEndLine(e.start, e.end, e.text);
  }

  /** What the text group of the range pattern captures stays free of line feeds. */
  lemma GroupHasNoFeed(t: string)
    requires NoLineBreak(t)
    ensures '\n' !in TrimStart(TrimEnd(t, Spaces), Spaces)
  {
    var u := TrimEnd(t, Spaces);
    TrimStartSuffix(u, Spaces);
    var g := TrimStart(u, Spaces);
    forall j | 0 <= j < |g|
      ensures g[j] != '\n'
    {
      assert g[j] == t[|u| - |g| + j];
    }
  }

  /** `\s*` before a character that is not a space skips exactly one space. */
  lemma SkipOneSpace(y: string)
    requires y != [] && !IsSpace(y[0])
    ensures TrimStart(" " + y, Spaces) == y
  {
    assert (" " + y)[1..] == y;
  }

  /** `\s*` before a string skips what `lstrip` skips. */
  lemma SkipSpaceThen(y: string)
    ensures TrimStart(" " + y, Spaces) == TrimStart(y, Spaces)
  {
    assert (" " + y)[1..] == y;
  }

  /** The range pattern after the end number: `s]`, spaces, and the text group. */
  lemma MatchTail(u: string)
    requires '\n' !in TrimStart(u, Spaces)
    ensures var r3 := "s]" + (" " + u);
      (|r3| >= 2 && r3[..2] == "s]" && LineTail(TrimStart(r3[2..], Spaces)) == Some(TrimStart(u, Spaces)))
  {
    var r3 := "s]" + (" " + u);
    assert r3[..2] == "s]";
    assert r3[2..] == " " + u;
    SkipSpaceThen(u);
  }

  /** The range pattern after the start number: `s`, spaces, `-`, spaces, the end number. */
  lemma MatchMiddle(b: Numeral, z: string)
    requires ValidNumeral(b)
    requires z != [] && z[0] == 's'
    ensures var r1 := "s" + (" " + ("-" + (" " + (Render(b) + z))));
      (r1 != [] && r1[0] == 's' &&
       var r2 := TrimStart(r1[1..], Spaces);
       (r2 != [] && r2[0] == '-' && ParseNumber(TrimStart(r2[1..], Spaces)) == Some((Value(b), z))))
  {
    var y := " " + (Render(b) + z);
    var r1 := "s" + (" " + ("-" + y));
    assert r1[1..] == " " + ("-" + y);
    SkipOneSpace("-" + y);
    assert ("-" + y)[1..] == y;
    assert (Render(b) + z)[0] == b.whole[0];
    SkipOneSpace(Render(b) + z);
    ParseRendered(b, z);
  }

  /** The range pattern on a written line: both numbers and the text group. */
  lemma MatchLine(a: Numeral, b: Numeral, u: string)
    requires ValidNumeral(a) && ValidNumeral(b)
    requires '\n' !in TrimStart(u, Spaces)
    ensures MatchRange(Line(a, b, u)) == Some((Value(a), Value(b), TrimStart(u, Spaces)))
  {
    var z := "s]" + (" " + u);
    var x := "s" + (" " + ("-" + (" " + (Render(b) + z))));
    var line := Line(a, b, u);
    assert line[1..] == Render(a) + x;
    ParseRendered(a, x);
    MatchMiddle(b, z);
    MatchTail(u);
  }

  /** The text group, stripped again by the reader, is the stripped text. */
  lemma GroupStrips(t: string)
    ensures Strip(TrimStart(TrimEnd(t, Spaces), Spaces)) == Strip(t)
  {
    var u := TrimEnd(t, Spaces);
    var g := TrimStart(u, Spaces);
    assert TrimStart(g, Spaces) == g;
    TrimCommute(u, Spaces);
    assert TrimEnd(u, Spaces) == u;
    TrimCommute(t, Spaces);
  }

  /** The range pattern on a written line, once stripped: both numbers and the text group. */
  lemma MatchFormatted(e: Entry)
    requires ValidEntry(e)
    ensures MatchRange(Strip(FormatEntry(e))) ==
      Some((Value(e.start), Value(e.end), TrimStart(TrimEnd(e.text, Spaces), Spaces)))
  {
    StripFormatted(e);
    GroupHasNoFeed(e.text);
    MatchLine(e.start, e.end, TrimEnd(e.text, Spaces));
  }

  /** The text group of a written line strips to the written text, which is not blank. */
  lemma TextGroup(t: string)
    requires !IsBlank(t)
    ensures Strip(TrimStart(TrimEnd(t, Spaces), Spaces)) == Strip(t) && Strip(t) != []
  {
    GroupStrips(t);
    StripEmptyIffBlank(t);
  }

  /** A line the range pattern matches, with a text group that strips to `t`, is read as `t` in that window. */
  lemma PickMatched(line: string, a: real, b: real, g: string, t: string)
    requires MatchRange(line) == Some((a, b, g))
    requires Strip(g) == Strip(t) && Strip(t) != []
    ensures Pick(line) == [Pending(Strip(t), a, Some(Max(MinTimedWindow, b - a)))]
  {
  }

  /** A written line, stripped, is read back as its segment with a known window. */
  lemma PickFormatted(e: Entry)
    requires ValidEntry(e)
    ensures Pick(Strip(FormatEntry(e))) == [PendingOf(e)]
  {
    var a, b := Value(e.start), Value(e.end);
    assert PendingOf(e) == Pending(Strip(e.text), a, Some(Max(MinTimedWindow, b - a)));
    var g := TrimStart(TrimEnd(e.text, Spaces), Spaces);
    MatchFormatted(e);
    TextGroup(e.text);
    var line := Strip(FormatEntry(e));
    PickMatched(line, a, b, g, e.text);
  }

  /** A written line is a body line: not blank and not a rule. */
  lemma BodyLineFormatted(e: Entry)
    requires ValidEntry(e)
    ensures BodyLine(FormatEntry(e)) == [Strip(FormatEntry(e))]
  {
    StripFormatted(e);
    assert Strip(FormatEntry(e))[0] == '[';
  }

  lemma NoLineBreakAppend(a: string, b: string)
    requires NoLineBreak(a) && NoLineBreak(b)
    ensures NoLineBreak(a + b)
  {
    assert forall i :: 0 <= i < |a + b| ==> (a + b)[i] == if i < |a| then a[i] else b[i - |a|];
  }

  lemma RenderNoBreak(n: Numeral)
    requires ValidNumeral(n)
    ensures NoLineBreak(Render(n))
  {
    if n.frac != [] {
      NoLineBreakAppend(n.whole, ".");
      NoLineBreakAppend(n.whole + ".", n.frac);
    }
  }

  /** A written line holds no line break of its own. */
  lemma FormattedNoBreak(e: Entry)
    requires ValidEntry(e)
    ensures NoLineBreak(FormatEntry(e))
  {
    RenderNoBreak(e.start);
    RenderNoBreak(e.end);
    var t := e.text;
    var z := "s]" + (" " + t);
    var y := " " + (Render(e.end) + z);
    var x := "s" + (" " + ("-" + y));
    NoLineBreakAppend(" ", t);
    NoLineBreakAppend("s]", " " + t);
    NoLineBreakAppend(Render(e.end), z);
    NoLineBreakAppend(" ", Render(e.end) + z);
    NoLineBreakAppend("-", y);
    NoLineBreakAppend(" ", "-" + y);
    NoLineBreakAppend("s", " " + ("-" + y));
    NoLineBreakAppend(Render(e.start), x);
    NoLineBreakAppend("[", Render(e.start) + x);
  }

  // ---------------------------------------------------------------------
  // Reading the whole file back
  // ---------------------------------------------------------------------

  /** One written line, read back through the three stages of the reader. */
  lemma ReadStep(e: Entry, rest: string)
    requires ValidEntry(e)
    ensures Lines(FormatEntry(e) + "\n" + rest) == [FormatEntry(e)] + Lines(rest)
    ensures BodyAfter([FormatEntry(e)] + Lines(rest)) == [Strip(FormatEntry(e))] + BodyAfter(Lines(rest))
    ensures Collected([Strip(FormatEntry(e))] + BodyAfter(Lines(rest))) == [PendingOf(e)] + Collected(BodyAfter(Lines(rest)))
  {
    FormattedNoBreak(e);
    LinesCons(FormatEntry(e), rest);
    BodyAfterAppend([FormatEntry(e)], Lines(rest));
    BodyLineFormatted(e);
    CollectedAppend([Strip(FormatEntry(e))], BodyAfter(Lines(rest)));
    PickFormatted(e);
  }

  /** The segment lines read back, in order, each with its known window. */
  lemma {:induction false} ReadEntries(es: seq<Entry>)
    requires AllValid(es)
    ensures Collected(BodyAfter(Lines(JoinEntries(es)))) == PendingsOf(es)
  {
    if es == [] {
      assert BodyAfter([""]) == [];
    } else {
      ReadEntries(es[1..]);
      ReadStep(es[0], JoinEntries(es[1..]));
    }
  }

  lemma {:induction false} PendingsOfIndex(es: seq<Entry>, k: nat)
    requires AllValid(es) && k < |es|
    ensures |PendingsOf(es)| == |es| && PendingsOf(es)[k] == PendingOf(es[k])
  {
    if k > 0 {
      PendingsOfIndex(es[1..], k - 1);
    } else if |es| > 1 {
      PendingsOfIndex(es[1..], 0);
    }
  }

  /** Every window is known, so filling leaves each as it was written. */
  lemma FilledKnown(es: seq<Entry>)
    requires AllValid(es)
    ensures Filled(PendingsOf(es)) == Expected(es)
  {
    PendingsOfLength(es);
    forall k | 0 <= k < |es|
      ensures Filled(PendingsOf(es))[k] == Expected(es)[k]
    {
      FilledKnownAt(es, k);
    }
  }

  lemma {:induction false} PendingsOfLength(es: seq<Entry>)
    requires AllValid(es)
    ensures |PendingsOf(es)| == |es|
  {
    if es != [] {
      PendingsOfLength(es[1..]);
    }
  }

  lemma FilledKnownAt(es: seq<Entry>, k: nat)
    requires AllValid(es) && k < |es|
    ensures |PendingsOf(es)| == |es| && Filled(PendingsOf(es))[k] == SegmentOf(es[k])
  {
    var p := PendingsOf(es);
    PendingsOfIndex(es, k);
    assert FilledDuration(p, k) == p[k].duration.value;
  }

  /** Splitting what was written line by line gives the lines back, then the lines of what follows. */
  lemma {:induction false} LinesOfJoined(ls: seq<string>, y: string)
    requires forall k :: 0 <= k < |ls| ==> NoLineBreak(ls[k])
    ensures Lines(JoinLines(ls) + y) == ls + Lines(y)
  {
    if ls != [] {
      LinesOfJoined(ls[1..], y);
      AppendAssoc(ls[0] + "\n", JoinLines(ls[1..]), y);
      LinesCons(ls[0], JoinLines(ls[1..]) + y);
      AppendAssoc([ls[0]], ls[1..], Lines(y));
      assert ls == [ls[0]] + ls[1..];
    } else {
      assert JoinLines(ls) + y == y;
    }
  }

  lemma RuleFacts()
    ensures IsRule(Rule) && NoLineBreak(Rule)
  {
    assert Rule[0] == '=' && Rule[RuleWidth - 1] == '=';
    assert TrimStart(Rule, Spaces) == Rule;
  }

  /** The rule line and the empty line after it, then whatever follows. */
  lemma RuleLines(j: string)
    ensures Lines(Rule + "\n\n" + j) == [Rule] + ([""] + Lines(j))
  {
    RuleFacts();
    AppendAssoc(Rule, "\n\n", j);
    AppendAssoc(Rule, "\n", "\n" + j);
    assert "\n" + ("\n" + j) == "\n\n" + j;
    LinesCons(Rule, "\n" + j);
    assert "" + "\n" + j == "\n" + j;
    LinesCons("", j);
  }

  /** The file as its lines: the header, the rule, an empty line, then the lines of the segments. */
  lemma WrittenLines(header: seq<string>, es: seq<Entry>)
    requires forall k :: 0 <= k < |header| ==> NoLineBreak(header[k])
    ensures Lines(WriteTranscript(header, es)) == header + ([Rule] + ([""] + Lines(JoinEntries(es))))
  {
    var j := JoinEntries(es);
    LinesOfJoined(header, Rule + "\n\n" + j);
    RuleLines(j);
  }

  /**
   * Loading a written transcript gives back one segment per written line,
   * in order, with the stripped text, the start as written and a window
   * of the written end minus start, but never under 0.2 s; with no lines,
   * nothing. The header is skipped as long as no line of it is a rule.
   */
  lemma LoadWritten(header: seq<string>, es: seq<Entry>)
    requires forall k :: 0 <= k < |header| ==> NoLineBreak(header[k])
    requires NoRule(header)
    requires AllValid(es)
    ensures Loaded(WriteTranscript(header, es)) == Expected(es)
  {
    var body := BodyAfter(Lines(JoinEntries(es)));
    WrittenBody(header, es);
    ReadEntries(es);
    FilledKnown(es);
    if es == [] {
      assert Untimed(body) == [];
    }
  }

  /** The body of a written file is what its segment lines give. */
  lemma WrittenBody(header: seq<string>, es: seq<Entry>)
    requires forall k :: 0 <= k < |header| ==> NoLineBreak(header[k])
    requires NoRule(header)
    ensures BodyOf(Lines(WriteTranscript(header, es))) == BodyAfter(Lines(JoinEntries(es)))
  {
    var tail := Lines(JoinEntries(es));
    WrittenLines(header, es);
    RuleFacts();
    AppendAssoc(header, [Rule], [""] + tail);
    BodyFollowsFirstRule(header, Rule, [""] + tail);
    BodyAfterAppend([""], tail);
    assert BodyAfter([""]) == [];
  }

  /** A header line that does not start with `=` or a space is not a rule. */
  lemma NotRule(line: string)
    requires line != [] && line[0] != '=' && !IsSpace(line[0])
    ensures !IsRule(line)
  {
    assert TrimStart(line, Spaces) == line;
  }

  /** The title line of the translated transcript holds no break and is no rule. */
  lemma TranslationTitleFacts()
    ensures NoLineBreak(TranslationTitle) && !IsRule(TranslationTitle)
  {
    NotRule(TranslationTitle);
    NoLineBreakAppend("Português ", "(PT-BR)");
    NoLineBreakAppend("para ", "Português " + "(PT-BR)");
    NoLineBreakAppend("Traduzida ", "para " + ("Português " + "(PT-BR)"));
    NoLineBreakAppend("Transcrição ", "Traduzida " + ("para " + ("Português " + "(PT-BR)")));
  }

  /** The translated transcript reads back as the segments written into it. */
  lemma LoadTranslationFile(es: seq<Entry>)
    requires AllValid(es)
    ensures Loaded(TranslationFile(es)) == Expected(es)
  {
    TranslationTitleFacts();
    assert NoRule([TranslationTitle]);
    LoadWritten([TranslationTitle], es);
  }

  /** `e` is the line written for a segment with this text and window, its times rendered exactly. */
  predicate Renders(e: Entry, text: string, start: real, end: real)
  {
    ValidEntry(e) && e.text == text && Value(e.start) == start && Value(e.end) == end
  }

  /**
   * The translation file of `translate_and_dub.py`, which writes each
   * segment as `start` and `start + duration`, reads back as the same
   * segments with their text stripped and their windows raised to 0.2 s.
   */
  lemma TranslationReadBack(segs: seq<Segment>, es: seq<Entry>)
    requires |es| == |segs|
    requires forall k :: 0 <= k < |es| ==> Renders(es[k], segs[k].text, segs[k].start, segs[k].start + segs[k].duration)
    ensures |Loaded(TranslationFile(es))| == |segs|
    ensures forall k :: 0 <= k < |segs| ==>
      Loaded(TranslationFile(es))[k] == Segment(Strip(segs[k].text), segs[k].start, Max(MinTimedWindow, segs[k].duration))
  {
    assert AllValid(es);
    LoadTranslationFile(es);
    forall k | 0 <= k < |segs|
      ensures Expected(es)[k] == Segment(Strip(segs[k].text), segs[k].start, Max(MinTimedWindow, segs[k].duration))
    {
      assert Expected(es)[k] == SegmentOf(es[k]);
    }
  }

  /**
   * A caption transcript reads back as the captions written into it, as
   * long as the title and the language label hold no line break.
   */
  lemma LoadCaptionFile(titulo: string, idiomaLabel: string, es: seq<Entry>)
    requires NoLineBreak(titulo) && NoLineBreak(idiomaLabel)
    requires AllValid(es)
    ensures Loaded(CaptionFile(titulo, idiomaLabel, es)) == Expected(es)
  {
    CaptionHeader(titulo, idiomaLabel);
    LoadWritten(["Transcrição: " + titulo, "Idioma: " + idiomaLabel], es);
  }

  /** The caption header lines hold no break and are no rule. */
  lemma CaptionHeader(titulo: string, idiomaLabel: string)
    requires NoLineBreak(titulo) && NoLineBreak(idiomaLabel)
    ensures var h := ["Transcrição: " + titulo, "Idioma: " + idiomaLabel];
      NoRule(h) && forall k :: 0 <= k < |h| ==> NoLineBreak(h[k])
  {
    LabelLine("Transcrição: ", titulo);
    LabelLine("Idioma: ", idiomaLabel);
    var h := ["Transcrição: " + titulo, "Idioma: " + idiomaLabel];
    assert h[1..][1..] == [];
  }

  /** `f"{prefix}{value}"` with a prefix that starts with a letter: a single line, and no rule. */
  lemma LabelLine(prefix: string, value: string)
    requires prefix != [] && prefix[0] != '=' && !IsSpace(prefix[0]) && NoLineBreak(prefix)
    requires NoLineBreak(value)
    ensures !IsRule(prefix + value) && NoLineBreak(prefix + value)
  {
    NotRule(prefix + value);
    NoLineBreakAppend(prefix, value);
  }
}
