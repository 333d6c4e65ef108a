/**
 * The captions `youtube_tool.py` saves: each caption's fields as
 * `_campos_snippet` reads them, written by `_salvar_transcricao`, and read
 * back by the loader of `translate_and_dub.py`.
 */
module Captions {
  import opened Text
  import opened Segments
  import opened Transcript
  import opened TranscriptWriter
  import opened Naming

  /** `e` is the line `_salvar_transcricao` writes for the caption `s`, its times rendered exactly. */
  predicate WrittenFor(e: Entry, s: Snippet)
  {
    var f := SnippetFields(s);
    Renders(e, f.text, f.start, f.start + f.duration)
  }

  /**
   * Reading a saved caption file gives one segment per caption, in order:
   * the caption's stripped text, its start clamped at 0, and its duration
   * clamped at 0 and then raised to 0.2 s.
   */
  lemma CaptionsReadBack(titulo: string, idiomaLabel: string, snippets: seq<Snippet>, es: seq<Entry>)
    requires NoLineBreak(titulo) && NoLineBreak(idiomaLabel)
    requires |es| == |snippets|
    requires forall k :: 0 <= k < |es| ==> WrittenFor(es[k], snippets[k])
    ensures |Loaded(CaptionFile(titulo, idiomaLabel, es))| == |snippets|
    ensures forall k :: 0 <= k < |snippets| ==>
      var f := SnippetFields(snippets[k]);
      Loaded(CaptionFile(titulo, idiomaLabel, es))[k] == Segment(Strip(f.text), Max(snippets[k].start.GetOr(0.0), 0.0), Max(MinTimedWindow, f.duration))
  {
    assert AllValid(es);
    LoadCaptionFile(titulo, idiomaLabel, es);
    forall k | 0 <= k < |snippets|
      ensures var f := SnippetFields(snippets[k]);
        Expected(es)[k] == Segment(Strip(f.text), Max(snippets[k].start.GetOr(0.0), 0.0), Max(MinTimedWindow, f.duration))
    {
      assert Expected(es)[k] == SegmentOf(es[k]);
    }
  }
}
