/**
 * The sequential part of `_gerar_audio_completo` and `_concatenar_simples`
 * (dubbing.py): one speech clip per normalised segment, skipping the
 * segments whose synthesis or fitting raised, the length of the silent base
 * track, the overlay-mix graph with a millisecond delay per clip, and the
 * linear concatenation list used when the mix fails. Speech synthesis,
 * probing and FFmpeg runs are outcomes given as parameters.
 */
module Assembly {
  import opened Wrappers
  import opened Segments
  import opened Stretch
  import opened Normalize

  /** One entry of `arquivos_segmento`: a fitted clip on disk and where it goes. */
  datatype SyncedClip = SyncedClip(file: string, start: real, duration: real, index: nat, plan: FitPlan)

  /** An input of the `amix` filter: the silent base track `[0]` or the delayed clip `[dk]`. */
  datatype Label = BaseTrack | Delayed(k: nat)

  /** `[input]aresample=44100,aformat=channel_layouts=mono,adelay=delayMs[d output]`. */
  datatype DelayStage = DelayStage(input: nat, delayMs: int, output: nat)

  /**
   * The FFmpeg overlay-mix job: the input files in order (`-i` each), one
   * delay stage per clip, and the `amix` stage's inputs and input count.
   */
  datatype MixGraph = MixGraph(inputs: seq<string>, delays: seq<DelayStage>, mixed: seq<Label>, mixCount: nat)

  /** Which file the job hands back: the mixed track, or the concatenation and its list file. */
  datatype Mixdown = Mixed(file: string) | Concatenated(listFile: string, listLines: seq<string>, file: string)

  datatype Dubbing = Dubbing(clips: seq<SyncedClip>, total: real, baseFile: string, graph: MixGraph, output: Mixdown)

  /** `Exception("Nenhum segmento de áudio foi gerado")`. */
  datatype DubbingError = NoSegmentGenerated

  /** Voices by name, the name used when none is given, and their edge-tts ids. */
  const Feminine: string := "pt-BR-FranciscaNeural"
  const Masculine: string := "pt-BR-AntonioNeural"
  const Voices: map<string, string> := map["feminina" := Feminine, "masculina" := Masculine]
  const DefaultVoice: string := "masculina"

  /** The voice lookup of `gerar_dublagem`: an unknown or missing name falls back to the default. */
  function VoiceId(voz: Option<string>): (id: string)
    ensures id in Voices.Values
    ensures id == Feminine <==> voz == Some("feminina")
    ensures id == Masculine <==> voz != Some("feminina")
  {
    var name := voz.GetOr(DefaultVoice);
    if name in Voices then Voices[name] else Voices[DefaultVoice]
  }

  function DigitChar(d: nat): char
    requires d < 10
  {
    ('0' as int + d) as char
  }

  /** The decimal numeral of `n`. */
  function Decimal(n: nat): (s: string)
    ensures |s| >= 1
    decreases n
  {
    if n < 10 then [DigitChar(n)] else Decimal(n / 10) + [DigitChar(n % 10)]
  }

  /** Python's `f"{n:05d}"`: the numeral left-padded with zeros to five characters. */
  function Pad5(n: nat): (s: string)
    ensures |s| >= 5
  {
    var d := Decimal(n);
    if |d| >= 5 then d else seq(5 - |d|, _ => '0') + d
  }

  /** `os.path.join(dir, name)` on POSIX, for a directory that does not end in '/'. */
  function Join(dir: string, name: string): string { dir + "/" + name }

  /** The fitted clip of segment `i`: `seg_{i:05d}.wav` in the work folder. */
  function SegmentFile(dir: string, i: nat): string { Join(dir, "seg_" + Pad5(i) + ".wav") }

  /** Python's `int(x)` on a float: truncation toward zero. */
  function TruncToInt(x: real): (n: int)
    ensures x >= 0.0 ==> n >= 0 && n as real <= x < n as real + 1.0
    ensures x < 0.0 ==> n <= 0 && n as real - 1.0 < x <= n as real
  {
    if x >= 0.0 then x.Floor else -((-x).Floor)
  }

  /** The clip recorded for segment `i` when its synthesis and fitting did not raise. */
  function ClipOf(segs: seq<Segment>, i: nat, dir: string, probe: nat -> real): SyncedClip
    requires i < |segs|
  {
    SyncedClip(SegmentFile(dir, i), segs[i].start, segs[i].duration, i, PlanFit(segs[i].duration, probe(i)))
  }

  /** `arquivos_segmento` after the first `n` iterations of the synthesis loop. */
  function SyncedUpTo(segs: seq<Segment>, n: nat, dir: string, synthOk: nat -> bool, probe: nat -> real): seq<SyncedClip>
    requires n <= |segs|
  {
    if n == 0 then []
    else SyncedUpTo(segs, n - 1, dir, synthOk, probe) + (if synthOk(n - 1) then [ClipOf(segs, n - 1, dir, probe)] else [])
  }

  /**
   * The synthesis loop keeps segment order: indices strictly increase, each
   * clip carries its segment's start and window, and the clips are exactly
   * those of the segments whose synthesis succeeded.
   */
  lemma {:induction false} SyncedClipsInOrder(segs: seq<Segment>, n: nat, dir: string, synthOk: nat -> bool, probe: nat -> real)
    requires n <= |segs|
    ensures var c := SyncedUpTo(segs, n, dir, synthOk, probe);
      && |c| <= n
      && (forall k :: 0 <= k < |c| ==> c[k].index < n && synthOk(c[k].index) && c[k] == ClipOf(segs, c[k].index, dir, probe))
      && (forall k, l :: 0 <= k < l < |c| ==> c[k].index < c[l].index)
      && (forall i :: 0 <= i < n && synthOk(i) ==> exists k :: 0 <= k < |c| && c[k].index == i)
  {
    if n > 0 {
      SyncedClipsInOrder(segs, n - 1, dir, synthOk, probe);
      var c0 := SyncedUpTo(segs, n - 1, dir, synthOk, probe);
      var c := SyncedUpTo(segs, n, dir, synthOk, probe);
      if synthOk(n - 1) {
        assert c == c0 + [ClipOf(segs, n - 1, dir, probe)];
        assert c[|c| - 1].index == n - 1;
      } else {
        assert c == c0;
      }
      forall k | 0 <= k < |c|
        ensures c[k].index < n && synthOk(c[k].index) && c[k] == ClipOf(segs, c[k].index, dir, probe)
      {
        if k < |c0| {
          assert c[k] == c0[k];
        }
      }
      forall k, l | 0 <= k < l < |c| ensures c[k].index < c[l].index {
        assert c[k] == c0[k];
        if l < |c0| {
          assert c[l] == c0[l];
        }
      }
      forall i | 0 <= i < n && synthOk(i) ensures exists k :: 0 <= k < |c| && c[k].index == i {
        if i < n - 1 {
          var k :| 0 <= k < |c0| && c0[k].index == i;
          assert c[k] == c0[k];
        } else {
          assert c[|c| - 1].index == i;
        }
      }
    }
  }

  /** The loop yields no clip exactly when no segment's synthesis succeeded. */
  lemma {:induction false} SyncedEmptyIffAllFailed(segs: seq<Segment>, n: nat, dir: string, synthOk: nat -> bool, probe: nat -> real)
    requires n <= |segs|
    ensures SyncedUpTo(segs, n, dir, synthOk, probe) == [] <==> forall i :: 0 <= i < n ==> !synthOk(i)
  {
    if n > 0 {
      SyncedEmptyIffAllFailed(segs, n - 1, dir, synthOk, probe);
    }
  }

  /** The latest end `start + duration` over the segments, 0.0 when there are none. */
  function LatestEnd(segs: seq<Segment>): (m: real)
    ensures forall k :: 0 <= k < |segs| ==> End(segs[k]) <= m
    ensures segs != [] ==> exists k :: 0 <= k < |segs| && End(segs[k]) == m
    ensures segs == [] ==> m == 0.0
  {
    if segs == [] then 0.0
    else if |segs| == 1 then End(segs[0])
    else
      var rest := LatestEnd(segs[1..]);
      assert forall k :: 1 <= k < |segs| ==> End(segs[k]) <= rest by {
        forall k | 1 <= k < |segs| ensures End(segs[k]) <= rest {
          assert segs[k] == segs[1..][k - 1];
        }
      }
      if End(segs[0]) >= rest then End(segs[0])
      else
        var j :| 0 <= j < |segs[1..]| && End(segs[1..][j]) == rest;
        assert segs[j + 1] == segs[1..][j];
        rest
  }

  /** Length of the silent base track: the latest end over all segments plus one second. */
  function TotalDuration(segs: seq<Segment>): real { LatestEnd(segs) + 1.0 }

  /**
   * Builds the inputs and the filter of the overlay mix: the base track is
   * input 0, clip k is input k + 1, delayed by its start in whole
   * milliseconds (truncated) and labelled `dk`; `amix` takes `[0][d0]...[d(n-1)]`,
   * that is n + 1 inputs.
   */
  method BuildMixGraph(base: string, clips: seq<SyncedClip>) returns (g: MixGraph)
    ensures |g.inputs| == |clips| + 1 && g.inputs[0] == base
    ensures forall k :: 0 <= k < |clips| ==> g.inputs[k + 1] == clips[k].file
    ensures |g.delays| == |clips|
    ensures forall k :: 0 <= k < |clips| ==>
      g.delays[k] == DelayStage(k + 1, TruncToInt(clips[k].start * 1000.0), k)
    ensures |g.mixed| == |clips| + 1 && g.mixed[0] == BaseTrack
    ensures forall k :: 0 <= k < |clips| ==> g.mixed[k + 1] == Delayed(k)
    ensures g.mixCount == |g.mixed|
  {
    var inputs := [base];
    var parts: seq<DelayStage> := [];
    for idx := 0 to |clips|
      invariant |inputs| == idx + 1 && inputs[0] == base
      invariant forall k :: 0 <= k < idx ==> inputs[k + 1] == clips[k].file
      invariant |parts| == idx
      invariant forall k :: 0 <= k < idx ==> parts[k] == DelayStage(k + 1, TruncToInt(clips[k].start * 1000.0), k)
    {
      inputs := inputs + [clips[idx].file];
      var inputIdx := idx + 1;
      var delayMs := TruncToInt(clips[idx].start * 1000.0);
      parts := parts + [DelayStage(inputIdx, delayMs, idx)];
    }
    var mixed := [BaseTrack] + seq(|clips|, i requires 0 <= i => Delayed(i));
    g := MixGraph(inputs, parts, mixed, |clips| + 1);
  }

  /** A line of the concat demuxer's list: `file '<path>'`. */
  function ConcatLine(file: string): string { "file '" + file + "'\n" }

  /** `_concatenar_simples`'s list file: one line per clip, in list order, whatever the starts. */
  method ConcatList(clips: seq<SyncedClip>) returns (lines: seq<string>)
    ensures |lines| == |clips|
    ensures forall k :: 0 <= k < |clips| ==> lines[k] == ConcatLine(clips[k].file)
  {
    lines := [];
    for k := 0 to |clips|
      invariant |lines| == k
      invariant forall j :: 0 <= j < k ==> lines[j] == ConcatLine(clips[j].file)
    {
      lines := lines + [ConcatLine(clips[k].file)];
    }
  }

  /**
   * `_gerar_audio_completo`: normalises the segments, synthesizes and fits
   * them one after the other (segment i succeeds when `synthOk(i)`, its clip
   * probed at `probe(i)` seconds), fails when no clip was produced, builds
   * the base track and the mix, and falls back to the concatenation when the
   * mix run fails (`mixOk` false).
   */
  method GenerateFullAudio(raw: seq<RawSegment>, dir: string, synthOk: nat -> bool, probe: nat -> real, mixOk: bool)
    returns (r: Result<Dubbing, DubbingError>)
    ensures var segs := Normalized(raw);
      r.Err? <==> forall i :: 0 <= i < |segs| ==> !synthOk(i)
    ensures r.Ok? ==>
      var segs := Normalized(raw);
      && r.value.clips == SyncedUpTo(segs, |segs|, dir, synthOk, probe)
      && r.value.clips != []
      && r.value.total == LatestEnd(segs) + 1.0
      && r.value.baseFile == Join(dir, "silencio_base.wav")
      && |r.value.graph.inputs| == |r.value.clips| + 1
      && r.value.graph.inputs[0] == r.value.baseFile
      && (forall k :: 0 <= k < |r.value.clips| ==> r.value.graph.inputs[k + 1] == r.value.clips[k].file)
      && |r.value.graph.delays| == |r.value.clips|
      && (forall k :: 0 <= k < |r.value.clips| ==>
            r.value.graph.delays[k] == DelayStage(k + 1, TruncToInt(r.value.clips[k].start * 1000.0), k))
      && |r.value.graph.mixed| == |r.value.clips| + 1
      && r.value.graph.mixed[0] == BaseTrack
      && (forall k :: 0 <= k < |r.value.clips| ==> r.value.graph.mixed[k + 1] == Delayed(k))
      && r.value.graph.mixCount == |r.value.clips| + 1
      && (mixOk ==> r.value.output == Mixed(Join(dir, "dublagem_completa.wav")))
      && (!mixOk ==>
            && r.value.output.Concatenated?
            && r.value.output.listFile == Join(dir, "concat_list.txt")
            && r.value.output.file == Join(dir, "dublagem_concat.wav")
            && |r.value.output.listLines| == |r.value.clips|
            && (forall k :: 0 <= k < |r.value.clips| ==>
                  r.value.output.listLines[k] == ConcatLine(r.value.clips[k].file)))
  {
    var segmentos := NormalizeSegments(raw);
    var arquivos := SynthesizeClips(segmentos, dir, synthOk, probe);
    SyncedEmptyIffAllFailed(segmentos, |segmentos|, dir, synthOk, probe);
    if arquivos == [] {
      return Err(NoSegmentGenerated);
    }

    var total := TotalDuration(segmentos);
    var silencio := Join(dir, "silencio_base.wav");
    var graph := BuildMixGraph(silencio, arquivos);
    var output;
    if mixOk {
      output := Mixed(Join(dir, "dublagem_completa.wav"));
    } else {
      var lines := ConcatList(arquivos);
      output := Concatenated(Join(dir, "concat_list.txt"), lines, Join(dir, "dublagem_concat.wav"));
    }
    r := Ok(Dubbing(arquivos, total, silencio, graph, output));
  }

  /**
   * The synthesis loop of `_gerar_audio_completo`: one clip per segment whose
   * synthesis succeeds, fitted to the segment's window, in order.
   */
  method SynthesizeClips(segmentos: seq<Segment>, dir: string, synthOk: nat -> bool, probe: nat -> real)
    returns (arquivos: seq<SyncedClip>)
    ensures arquivos == SyncedUpTo(segmentos, |segmentos|, dir, synthOk, probe)
  {
    arquivos := [];
    for i := 0 to |segmentos|
      invariant arquivos == SyncedUpTo(segmentos, i, dir, synthOk, probe)
    {
      if synthOk(i) {
        var plan := PlanFit(segmentos[i].duration, probe(i));
        arquivos := arquivos + [SyncedClip(SegmentFile(dir, i), segmentos[i].start, segmentos[i].duration, i, plan)];
      }
    }
  }
}
