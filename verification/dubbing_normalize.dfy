/**
 * `_normalizar_segmentos` of the dubbing engine (dubbing.py): drops segments
 * without text, clamps times at zero, sorts by start and gives every
 * zero-length window a length.
 */
module Normalize {
  import opened Wrappers
  import opened Text
  import opened Segments

  /** A segment as handed to the engine: a dict in which any key may be missing. */
  datatype RawSegment = RawSegment(text: Option<string>, start: Option<real>, duration: Option<real>)

  /** Floor of a window inferred from the next segment's start. */
  const MinGapWindow: real := 0.15
  /** Floor of a window inferred for the last segment from its word count. */
  const MinLastWindow: real := 0.6
  /** Assumed speech rate, in words per second. */
  const WordsPerSecond: real := 2.8

  /** The segment's text, stripped; a missing or `None` text counts as "". */
  function CleanText(r: RawSegment): string { Strip(r.text.GetOr("")) }

  /** A segment survives cleaning when its stripped text is not empty. */
  predicate Kept(r: RawSegment) { CleanText(r) != [] }

  /** The cleaned form of a kept segment: stripped text, times clamped at 0, missing times 0. */
  function Tidy(r: RawSegment): Segment {
    Segment(CleanText(r), Max(0.0, r.start.GetOr(0.0)), Max(0.0, r.duration.GetOr(0.0)))
  }

  /** The cleaning loop's list: the kept segments, tidied, in input order. */
  function Clean(raw: seq<RawSegment>): (c: seq<Segment>)
    ensures |c| <= |raw|
  {
    if raw == [] then []
    else Clean(raw[..|raw| - 1]) + (if Kept(raw[|raw| - 1]) then [Tidy(raw[|raw| - 1])] else [])
  }

  /** Every kept input segment appears, tidied, in the cleaned list. */
  lemma {:induction false} CleanKeepsTexted(raw: seq<RawSegment>)
    ensures forall k :: 0 <= k < |raw| && Kept(raw[k]) ==> Tidy(raw[k]) in Clean(raw)
  {
    if raw != [] {
      var init := raw[..|raw| - 1];
      CleanKeepsTexted(init);
      forall k | 0 <= k < |raw| - 1 && Kept(raw[k]) ensures Tidy(raw[k]) in Clean(raw) {
        assert raw[k] == init[k];
        assert Tidy(init[k]) in Clean(init);
      }
    }
  }

  /** `c` is the tidied form of some kept segment of `raw`. */
  ghost predicate TidiedFrom(raw: seq<RawSegment>, c: Segment) {
    exists k :: 0 <= k < |raw| && Kept(raw[k]) && Tidy(raw[k]) == c
  }

  /** Every segment of the cleaned list is the tidied form of a kept input segment. */
  lemma {:induction false} CleanDropsBlank(raw: seq<RawSegment>)
    ensures forall c :: c in Clean(raw) ==> TidiedFrom(raw, c)
  {
    if raw != [] {
      var init := raw[..|raw| - 1];
      var last := raw[|raw| - 1];
      CleanDropsBlank(init);
      var tail := if Kept(last) then [Tidy(last)] else [];
      assert Clean(raw) == Clean(init) + tail;
      forall c | c in Clean(raw) ensures TidiedFrom(raw, c) {
        if c in Clean(init) {
          assert TidiedFrom(init, c);
          var k :| 0 <= k < |init| && Kept(init[k]) && Tidy(init[k]) == c;
          assert raw[k] == init[k];
          assert 0 <= k < |raw| && Kept(raw[k]) && Tidy(raw[k]) == c;
        } else {
          assert c in tail;
          assert Kept(last) && Tidy(last) == c;
          assert Kept(raw[|raw| - 1]) && Tidy(raw[|raw| - 1]) == c;
        }
      }
    }
  }

  /** A tidied kept segment has stripped non-empty text and times >= 0. */
  lemma TidyClean(r: RawSegment)
    requires Kept(r)
    ensures Tidy(r).text != [] && Strip(Tidy(r).text) == Tidy(r).text
    ensures Tidy(r).start >= 0.0 && Tidy(r).duration >= 0.0
  {
    StripCharsIdempotent(r.text.GetOr(""), Spaces);
  }

  /** Every cleaned segment has stripped non-empty text and times >= 0. */
  lemma CleanSegmentsTidy(raw: seq<RawSegment>)
    ensures forall c :: c in Clean(raw) ==>
      c.text != [] && Strip(c.text) == c.text && c.start >= 0.0 && c.duration >= 0.0
  {
    CleanDropsBlank(raw);
    forall c | c in Clean(raw)
      ensures c.text != [] && Strip(c.text) == c.text && c.start >= 0.0 && c.duration >= 0.0
    {
      assert TidiedFrom(raw, c);
      var k :| 0 <= k < |raw| && Kept(raw[k]) && Tidy(raw[k]) == c;
      TidyClean(raw[k]);
    }
  }

  /** Inserts `x` after every element whose start is not greater than its own. */
  function InsertByStart(x: Segment, s: seq<Segment>): seq<Segment>
  {
    if s == [] then [x]
    else if x.start < s[0].start then [x] + s
    else [s[0]] + InsertByStart(x, s[1..])
  }

  /** Python's stable `list.sort(key=start)`, as an insertion sort. */
  function SortByStart(s: seq<Segment>): seq<Segment>
  {
    if s == [] then [] else InsertByStart(s[|s| - 1], SortByStart(s[..|s| - 1]))
  }

  /** The elements starting at `t`, in order. */
  function WithStart(s: seq<Segment>, t: real): seq<Segment>
  {
    if s == [] then [] else (if s[0].start == t then [s[0]] else []) + WithStart(s[1..], t)
  }

  lemma {:induction false} InsertByStartElements(x: Segment, s: seq<Segment>)
    ensures |InsertByStart(x, s)| == |s| + 1
    ensures multiset(InsertByStart(x, s)) == multiset(s) + multiset{x}
    ensures forall y :: y in InsertByStart(x, s) ==> y == x || y in s
  {
    if s != [] && x.start >= s[0].start {
      InsertByStartElements(x, s[1..]);
      assert s == [s[0]] + s[1..];
    }
  }

  /** Inserting `x` into a permutation of `init` gives a permutation of `init + [x]`. */
  lemma InsertPermutes(init: seq<Segment>, x: Segment, sorted: seq<Segment>)
    requires |sorted| == |init| && multiset(sorted) == multiset(init)
    ensures |InsertByStart(x, sorted)| == |init + [x]|
    ensures multiset(InsertByStart(x, sorted)) == multiset(init + [x])
  {
    InsertByStartElements(x, sorted);
  }

  lemma {:induction false} InsertByStartSorted(x: Segment, s: seq<Segment>)
    requires SortedByStart(s)
    ensures SortedByStart(InsertByStart(x, s))
  {
    if s != [] && x.start >= s[0].start {
      InsertByStartSorted(x, s[1..]);
      var r := InsertByStart(x, s[1..]);
      InsertByStartElements(x, s[1..]);
      forall k | 0 <= k < |r| ensures s[0].start <= r[k].start {
        assert r[k] in r;
      }
    }
  }

  lemma {:induction false} WithStartAppend(a: seq<Segment>, b: seq<Segment>, t: real)
    ensures WithStart(a + b, t) == WithStart(a, t) + WithStart(b, t)
  {
    if a == [] {
      assert a + b == b;
    } else {
      var rest := a[1..];
      assert a == [a[0]] + rest;
      assert a + b == [a[0]] + (rest + b);
      WithStartAppend(rest, b, t);
      WithStartCons(a[0], rest + b, t);
      WithStartCons(a[0], rest, t);
    }
  }

  lemma {:induction false} WithStartNone(s: seq<Segment>, t: real)
    requires forall k :: 0 <= k < |s| ==> s[k].start > t
    ensures WithStart(s, t) == []
  {
    if s != [] {
      WithStartNone(s[1..], t);
    }
  }

  lemma {:induction false} InsertByStartStable(x: Segment, s: seq<Segment>, t: real)
    requires SortedByStart(s)
    ensures WithStart(InsertByStart(x, s), t) == WithStart(s, t) + (if x.start == t then [x] else [])
  {
    if s == [] {
      WithStartSingle(x, t);
    } else if x.start < s[0].start {
      if x.start == t {
        WithStartNone(s, t);
      }
      assert InsertByStart(x, s) == [x] + s;
      WithStartCons(x, s, t);
    } else {
      var tail := s[1..];
      var r := InsertByStart(x, tail);
      assert SortedByStart(tail);
      InsertByStartStable(x, tail, t);
      assert InsertByStart(x, s) == [s[0]] + r;
      WithStartCons(s[0], r, t);
      assert s == [s[0]] + tail;
      WithStartCons(s[0], tail, t);
    }
  }

  lemma WithStartCons(y: Segment, rest: seq<Segment>, t: real)
    ensures WithStart([y] + rest, t) == (if y.start == t then [y] else []) + WithStart(rest, t)
  {
    assert ([y] + rest)[0] == y;
    assert ([y] + rest)[1..] == rest;
  }

  /** Sorting by insertion orders the segments by start. */
  lemma {:induction false} SortByStartSorted(s: seq<Segment>)
    ensures SortedByStart(SortByStart(s))
  {
    if s != [] {
      SortByStartSorted(s[..|s| - 1]);
      InsertByStartSorted(s[|s| - 1], SortByStart(s[..|s| - 1]));
    }
  }

  /** Sorting by insertion keeps the segments: the result is a permutation of the input. */
  lemma {:induction false} SortByStartPermutes(s: seq<Segment>)
    ensures |SortByStart(s)| == |s|
    ensures multiset(SortByStart(s)) == multiset(s)
  {
    if s != [] {
      var init := s[..|s| - 1];
      var x := s[|s| - 1];
      var sorted := SortByStart(init);
      SortByStartPermutes(init);
      InsertPermutes(init, x, sorted);
      assert s == init + [x];
      assert SortByStart(s) == InsertByStart(x, sorted);
    }
  }

  /** Sorting by insertion keeps the order of segments with equal starts. */
  lemma {:induction false} SortByStartStable(s: seq<Segment>, t: real)
    ensures WithStart(SortByStart(s), t) == WithStart(s, t)
  {
    if s != [] {
      var init := s[..|s| - 1];
      var x := s[|s| - 1];
      var sorted := SortByStart(init);
      SortByStartStable(init, t);
      SortByStartSorted(init);
      InsertStable(init, x, sorted, t);
      assert s == init + [x];
      assert SortByStart(s) == InsertByStart(x, sorted);
    }
  }

  /** Inserting `x` into a sorted list with the same ties as `init` gives the ties of `init + [x]`. */
  lemma InsertStable(init: seq<Segment>, x: Segment, sorted: seq<Segment>, t: real)
    requires SortedByStart(sorted) && WithStart(sorted, t) == WithStart(init, t)
    ensures WithStart(InsertByStart(x, sorted), t) == WithStart(init + [x], t)
  {
    InsertByStartStable(x, sorted, t);
    WithStartAppend(init, [x], t);
    WithStartSingle(x, t);
  }

  lemma WithStartSingle(x: Segment, t: real)
    ensures WithStart([x], t) == (if x.start == t then [x] else [])
  {
    assert [x][1..] == [];
  }

  /**
   * `limpos.sort(key=start)`: the result is sorted by start, a permutation of
   * its input, and stable (segments with the same start keep their order).
   */
  lemma SortByStartIsStableSort(s: seq<Segment>)
    ensures |SortByStart(s)| == |s|
    ensures SortedByStart(SortByStart(s))
    ensures multiset(SortByStart(s)) == multiset(s)
    ensures forall t :: WithStart(SortByStart(s), t) == WithStart(s, t)
  {
    SortByStartSorted(s);
    SortByStartPermutes(s);
    forall t ensures WithStart(SortByStart(s), t) == WithStart(s, t) {
      SortByStartStable(s, t);
    }
  }

  function RepairedDuration(s: seq<Segment>, i: nat): real
    requires i < |s|
  {
    if s[i].duration > 0.0 then s[i].duration
    else if i + 1 < |s| then Max(MinGapWindow, s[i + 1].start - s[i].start)
    else Max(MinLastWindow, WordCount(s[i].text) as real / WordsPerSecond)
  }

  /** The repair loop's result: each segment with its repaired window. */
  function Repair(s: seq<Segment>): seq<Segment>
  {
    seq(|s|, i requires 0 <= i < |s| => s[i].(duration := RepairedDuration(s, i)))
  }

  /**
   * Repair changes only durations, leaves positive ones alone (even those
   * below 0.15), and gives a zero one max(0.15, next start - start), or
   * max(0.6, words / 2.8) on the last segment; afterwards every window is
   * positive.
   */
  lemma RepairWindows(s: seq<Segment>)
    requires forall i :: 0 <= i < |s| ==> s[i].duration >= 0.0
    ensures |Repair(s)| == |s|
    ensures forall i :: 0 <= i < |s| ==>
      Repair(s)[i].text == s[i].text && Repair(s)[i].start == s[i].start
    ensures forall i :: 0 <= i < |s| && s[i].duration > 0.0 ==> Repair(s)[i].duration == s[i].duration
    ensures forall i :: 0 <= i && i + 1 < |s| && s[i].duration == 0.0 ==>
      Repair(s)[i].duration == Max(MinGapWindow, s[i + 1].start - s[i].start)
    ensures |s| > 0 && s[|s| - 1].duration == 0.0 ==>
      Repair(s)[|s| - 1].duration == Max(MinLastWindow, WordCount(s[|s| - 1].text) as real / WordsPerSecond)
    ensures forall i :: 0 <= i < |s| ==> Repair(s)[i].duration > 0.0
  {
  }

  /** What `_normalizar_segmentos` returns. */
  function Normalized(raw: seq<RawSegment>): seq<Segment>
  {
    Repair(SortByStart(Clean(raw)))
  }

  /**
   * The normalised list holds the cleaned segments sorted by start, with
   * non-empty stripped text, start >= 0 and a positive window each.
   */
  lemma NormalizedInvariant(raw: seq<RawSegment>)
    ensures |Normalized(raw)| == |Clean(raw)|
    ensures SortedByStart(Normalized(raw))
    ensures forall i :: 0 <= i < |Normalized(raw)| ==>
      && Normalized(raw)[i].text != []
      && Strip(Normalized(raw)[i].text) == Normalized(raw)[i].text
      && Normalized(raw)[i].start >= 0.0
      && Normalized(raw)[i].duration > 0.0
  {
    var c := Clean(raw);
    var s := SortByStart(c);
    CleanSegmentsTidy(raw);
    SortByStartIsStableSort(c);
    forall i | 0 <= i < |s| ensures s[i] in c && s[i].duration >= 0.0 {
      assert s[i] in multiset(s);
    }
    RepairWindows(s);
  }

  /** `_normalizar_segmentos`: clean, sort, then repair zero windows in place. */
  method NormalizeSegments(raw: seq<RawSegment>) returns (limpos: seq<Segment>)
    ensures limpos == Normalized(raw)
    ensures SortedByStart(limpos)
    ensures forall i :: 0 <= i < |limpos| ==> limpos[i].text != [] && limpos[i].duration > 0.0
  {
    limpos := CollectCleaned(raw);
    limpos := SortByStart(limpos);
    if |limpos| == 0 {
      NormalizedInvariant(raw);
      return;
    }
    limpos := RepairZeroWindows(limpos);
    NormalizedInvariant(raw);
  }

  /** The cleaning loop of `_normalizar_segmentos`: the kept segments, tidied, in input order. */
  method CollectCleaned(raw: seq<RawSegment>) returns (limpos: seq<Segment>)
    ensures limpos == Clean(raw)
  {
    limpos := [];
    for k := 0 to |raw|
      invariant limpos == Clean(raw[..k])
    {
      assert raw[..k + 1][..k] == raw[..k];
      var texto := Strip(raw[k].text.GetOr(""));
      if texto == [] {
        continue;
      }
      var start := Max(0.0, raw[k].start.GetOr(0.0));
      var duration := Max(0.0, raw[k].duration.GetOr(0.0));
      limpos := limpos + [Segment(texto, start, duration)];
    }
    assert raw[..|raw|] == raw;
  }

  /** The repair loop of `_normalizar_segmentos`, updating the sorted list in place. */
  method RepairZeroWindows(sorted: seq<Segment>) returns (limpos: seq<Segment>)
    ensures limpos == Repair(sorted)
  {
    limpos := sorted;
    for i := 0 to |limpos|
      invariant |limpos| == |sorted|
      invariant forall j :: 0 <= j < i ==> limpos[j] == sorted[j].(duration := RepairedDuration(sorted, j))
      invariant forall j :: i <= j < |limpos| ==> limpos[j] == sorted[j]
    {
      if limpos[i].duration > 0.0 {
        continue;
      }
      if i + 1 < |limpos| {
        var prox := limpos[i + 1].start;
        limpos := limpos[i := limpos[i].(duration := Max(MinGapWindow, prox - limpos[i].start))];
      } else {
        var palavras := WordCount(limpos[i].text);
        limpos := limpos[i := limpos[i].(duration := Max(MinLastWindow, palavras as real / WordsPerSecond))];
      }
    }
  }
}
