/** The timed text segment shared by the transcript parser and the dubbing engine. */
module Segments {

  /** One utterance: its text, where it starts and how long its window is, in seconds. */
  datatype Segment = Segment(text: string, start: real, duration: real)

  /** Python's `max` and `min` on two floats. */
  function Max(a: real, b: real): real { if a >= b then a else b }
  function Min(a: real, b: real): real { if a <= b then a else b }

  /** Where the segment's window ends. */
  function End(s: Segment): real { s.start + s.duration }

  /** Starts never decrease along the sequence. */
  predicate SortedByStart(s: seq<Segment>) {
    forall i, j :: 0 <= i < j < |s| ==> s[i].start <= s[j].start
  }
}
