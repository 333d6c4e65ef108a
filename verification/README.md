# youtube_extrator: timing, transcript and naming core in Dafny

This project models the parts of `youtube_extrator` that decide times, text and names. The tool downloads YouTube videos and their captions, translates them to Brazilian Portuguese and dubs the video with synthesized speech. The model covers three files:

- **Dubbing timing engine** (`dubbing.py`):
  - Segment normalisation: the segments are cleaned, sorted stably by start, and zero durations are repaired.
  - The `atempo` stage chain that speeds a clip up or down.
  - The per-segment fit plan: stretch, then pad, then trim.
  - The sequential synthesis loop, which skips failed segments.
  - The total length of the dub.
  - The overlay mix graph, with one millisecond delay per clip.
  - The plain concatenation fallback.
  - The voice lookup.
- **Transcript reader** (`translate_and_dub.py`):
  - Body extraction after the `=====` header rule.
  - The `[a s - b s] text` and `[a s] text` line patterns.
  - Gap filling for lines that only give a start.
  - The fallback for transcripts without timestamps: sentence splitting, 14-word blocks and cumulative start times.
  - The choice between the two readers.
  - A writer/reader round trip for the files the tool itself writes: the translated transcript and the saved captions.
- **YouTube helpers** (`youtube_tool.py`):
  - `sanitizar_nome` (file names from titles).
  - `_campos_snippet` (caption fields with clamped times).
  - `extrair_video_id` (id from each address shape).
  - The downloaded-file search: exact names, then a case-insensitive name prefix, then the resolution tag. The largest file by (size, mtime) wins within each tier.

Python floats are Dafny `real`s. Strings are `seq<char>`, and whitespace is exactly the set of characters for which `str.isspace` holds. Regular expressions are modelled as deterministic scanners. Outside effects are parameters:
- FFmpeg, ffprobe and edge-tts outcomes are the oracles `synthOk`, `probe` and `mixOk`.
- A folder is a sequence of `DirEntry(name, isFile, size, mtime)`, plus a flag for whether it can be listed.
- The parts of a URL are given already split.

Loops of the source are methods, each proved equal to a specification function. The properties are proved about those functions.

| file | module | models |
|---|---|---|
| wrappers.dfy | `Wrappers` | `Option`, `Result` |
| text.dfy | `Text` | `strip`/`lstrip`, `split`, `splitlines`, `lower`, `in` on strings |
| segments.dfy | `Segments` | the `{text, start, duration}` segment |
| dubbing_stretch.dfy | `Stretch` | `_cadeia_atempo`, `_ajustar_segmento_para_janela` |
| dubbing_normalize.dfy | `Normalize` | `_normalizar_segmentos` |
| dubbing_assembly.dfy | `Assembly` | `_gerar_audio_completo`, `_concatenar_simples`, voice choice |
| transcript_parse.dfy | `Transcript` | the reading half of `translate_and_dub.py` |
| transcript_roundtrip.dfy | `TranscriptWriter` | the transcript writers and the read-back theorems |
| youtube_naming.dfy | `Naming` | `sanitizar_nome`, `_campos_snippet` |
| youtube_captions.dfy | `Captions` | read-back of the captions file `_salvar_transcricao` writes |
| youtube_video_id.dfy | `VideoId` | `extrair_video_id` |
| youtube_download.dfy | `Download` | `_escolher_maior_arquivo`, `_encontrar_video_baixado` |

Two behaviours of the code are worth stating plainly:
- Normalisation repairs only durations that are zero. A positive duration below 0.15 s is kept as it is (`Normalize.RepairWindows`).
- Each clip's delay is `int(start * 1000)`, which truncates toward zero rather than rounding (`Assembly.TruncToInt`, `Assembly.BuildMixGraph`).

## Model

| member | source | states |
|---|---|---|
| Stretch.ChainFromProduct | dubbing.py:78-82 | the halving loop's stages multiply back to the factor it started from |
| Stretch.ChainFromShape | dubbing.py:78-82 | the chain is never empty; every stage but the last is 2.0; the last lies above the floor and at most 2.0; there is one stage exactly when the factor is at most 2.0 |
| Stretch.ChainProperties | dubbing.py:75-83 | every stage lies in [0.5, 2.0]; all but the last are 2.0; the product is max(0.5, factor); there is a single stage iff max(0.5, factor) ≤ 2.0 |
| Stretch.AtempoChain | dubbing.py:70-83 | the `while` loop builds exactly the specified chain, with all the properties above |
| Stretch.PlanFit | dubbing.py:98-111 | pad and trim are both max(0.15, target); a stretch is planned iff the measured length exceeds that window; the stretch is the chain of measured/window, with product measured/window and every stage in (1, 2] |
| Stretch.FittedLengthIsWindow | dubbing.py:98-111 | in every branch the planned output length is the clamped window, and stretching the measured clip yields exactly the window |
| Normalize.CleanKeepsTexted | dubbing.py:130-136 | every input segment whose stripped text is non-empty appears, tidied, in the cleaned list |
| Normalize.CleanDropsBlank | dubbing.py:130-136 | every cleaned segment is the tidied form of an input segment with non-blank text |
| Normalize.TidyClean | dubbing.py:131-136 | a kept segment's text is stripped and non-empty, and its start and duration are at least 0 |
| Normalize.CleanSegmentsTidy | dubbing.py:130-136 | every segment in the cleaned list has stripped non-empty text and non-negative times |
| Normalize.InsertByStartElements | dubbing.py:138 | one insertion step adds exactly one element, as a multiset |
| Normalize.InsertByStartSorted | dubbing.py:138 | inserting into a list sorted by start keeps it sorted |
| Normalize.InsertByStartStable | dubbing.py:138 | an inserted segment goes after every earlier segment with the same start |
| Normalize.InsertPermutes | dubbing.py:138 | inserting into a permutation of a list gives a permutation of that list with the new element appended |
| Normalize.SortByStartSorted | dubbing.py:138 | the sort's output is ordered by start |
| Normalize.SortByStartPermutes | dubbing.py:138 | the sort's output is a permutation of its input |
| Normalize.SortByStartStable | dubbing.py:138 | for each start value, the segments with that start keep their input order |
| Normalize.InsertStable | dubbing.py:138 | inserting into a sorted list with the same ties as a list keeps the ties of that list with the new element appended |
| Normalize.SortByStartIsStableSort | dubbing.py:138 | `list.sort(key=start)` is a stable sort: same length, sorted, a permutation, equal keys in input order |
| Normalize.RepairWindows | dubbing.py:142-151 | texts and starts are unchanged and positive durations stay as they are, even below 0.15; a zero duration becomes max(0.15, next start − start), or max(0.6, words/2.8) for the last segment; every duration ends up positive |
| Normalize.NormalizedInvariant | dubbing.py:125-153 | the result has one segment per kept input, is sorted by start, and every segment has stripped non-empty text, start ≥ 0 and duration > 0 |
| Normalize.CollectCleaned | dubbing.py:129-136 | the cleaning loop computes the kept segments, tidied, in input order |
| Normalize.RepairZeroWindows | dubbing.py:142-151 | the repair loop gives each segment its repaired window and changes nothing else |
| Normalize.NormalizeSegments | dubbing.py:125-153 | the clean, sort and repair loops compute the normalised list, which is sorted with non-empty texts and positive durations |
| Assembly.VoiceId | dubbing.py:289-292 | the voice is always one of the table's voices; it is the feminine voice exactly when "feminina" is asked for, and the masculine default otherwise (missing or unknown name) |
| Assembly.TruncToInt | dubbing.py:219 | `int(x)` truncates toward zero: the floor for non-negative x, the ceiling for negative x |
| Assembly.SyncedClipsInOrder | dubbing.py:166-193 | the synced clips are exactly the segments whose synthesis succeeded, with strictly increasing indices, each carrying its own segment's file, start and duration |
| Assembly.SyncedEmptyIffAllFailed | dubbing.py:166-196 | the synced list is empty iff every segment failed |
| Assembly.LatestEnd | dubbing.py:199 | the latest end is an upper bound of every segment's start + duration and is attained, or 0.0 with no segments |
| Assembly.BuildMixGraph | dubbing.py:213-228 | the mix has n + 1 inputs (base track first, then the clip files in order); clip k is delayed by int(start·1000) ms, truncated toward zero, into label `dk`; the mix takes `[0][d0]…[d(n-1)]` |
| Assembly.ConcatList | dubbing.py:256-259 | the concat list has one `file '<path>'` line per clip, in list order |
| Assembly.SynthesizeClips | dubbing.py:164-193 | the synthesis loop keeps, in order, one clip per segment whose synthesis succeeds, carrying its index, start, window and fitting plan |
| Assembly.GenerateFullAudio | dubbing.py:156-251 | it fails iff no segment synthesized; otherwise it returns the synced clips, a total length of max(start + duration) over all normalised segments + 1.0, and the mix graph: its inputs are the silent base then each clip's file, clip k is delayed by int(start·1000) ms under label `d{k}`, and the mix takes `[0]` then every `d{k}`. The output is the mixed file, or, on mix failure, the concatenation through `concat_list.txt` of every clip in order |
| Transcript.EstimateDuration | translate_and_dub.py:20-23 | the estimate is max(1.2, words/2.8), so never below 1.2 |
| Transcript.BodyAfterAppend | translate_and_dub.py:32-37 | once the rule has been seen, body lines of a concatenation are the concatenation of their body lines |
| Transcript.BodyAfterLines | translate_and_dub.py:36-37 | each body line is stripped, non-empty, and not a rule |
| Transcript.BodyFollowsFirstRule | translate_and_dub.py:32-37 | nothing before the first rule line is kept; after it, the body is the stripped non-blank non-rule lines |
| Transcript.ExtractBody | translate_and_dub.py:26-39 | the loop with the `iniciou` flag computes the body of `splitlines` of the content |
| Transcript.BodyOfLines | translate_and_dub.py:32-39 | the loop over lines computes the body function |
| Transcript.BodyOfClean | translate_and_dub.py:26-39 | the body never contains rule lines, blank lines or unstripped lines |
| Transcript.LeadingDigits | translate_and_dub.py:16 | `\d+` takes the longest run of digits |
| Transcript.CollectedAppend | translate_and_dub.py:46-69 | the first loop reads each line on its own, so its results concatenate |
| Transcript.CollectedSegments | translate_and_dub.py:46-69 | every segment read has non-empty text, and a range line's duration is at least 0.2 |
| Transcript.FilledWindows | translate_and_dub.py:74-81 | order, texts and starts are kept; given durations are kept; a missing one becomes max(0.2, next start − start), or the estimate for the last segment; all durations are then ≥ 0.2 |
| Transcript.TimedWindows | translate_and_dub.py:42-83 | every timed segment has non-empty text and a duration of at least 0.2 |
| Transcript.PickSegments | translate_and_dub.py:47-69 | one line gives at most one segment, its text is not empty, and a known window lasts at least 0.2 |
| Transcript.PickPatterns | translate_and_dub.py:47-69 | a range line gives (its stripped text, its start, max(0.2, end - start)) exactly when that text is not blank; a start-only line that is not a range line gives (stripped text, start, window unknown) exactly when that text is not blank; any other line gives nothing |
| Transcript.SegmentTimed | translate_and_dub.py:42-83 | the two loops compute the timed segmentation |
| Transcript.CollectTimed | translate_and_dub.py:46-69 | the line-reading loop computes the segments read from each line, in order |
| Transcript.FillWindows | translate_and_dub.py:74-81 | the gap-filling loop computes the filled windows |
| Transcript.SentenceBreak | translate_and_dub.py:92 | the result is the first split point at or after i (`.`, `!` or `?` followed by whitespace), or the end of the text when none lies ahead |
| Transcript.SplitSentences | translate_and_dub.py:92 | the split yields at least one piece, and the first starts with the text's first character |
| Transcript.SplitWellCut | translate_and_dub.py:92 | there is one more piece than cuts; no piece contains a split point; every piece before a cut ends in `.`, `!` or `?`; every cut is a non-empty whitespace run; every piece after a cut is empty or starts with a non-space |
| Transcript.SplitRebuilds | translate_and_dub.py:92 | the pieces with the whitespace runs put back between them rebuild the text exactly |
| Transcript.SplitSentencesPieces | translate_and_dub.py:92 | `re.split(r"(?<=[.!?])\s+", t)`: the pieces are well cut as above and together with the cuts rebuild `t` |
| Transcript.SentencesNeverEmpty | translate_and_dub.py:92-93 | a stripped non-empty text always yields a sentence, so the 14-word fallback is never taken |
| Transcript.ChunksShape | translate_and_dub.py:93-103 | the blocks concatenate back to the words, each has 1 to 14 words, and all but the last have exactly 14 |
| Transcript.ChunkWords | translate_and_dub.py:93-103 | the `bloco` loop computes those blocks |
| Transcript.ScheduleIsCumulative | translate_and_dub.py:105-116 | one segment per sentence; the first starts at 0; each lasts its estimate; start[k+1] = start[k] + duration[k] |
| Transcript.UntimedSchedule | translate_and_dub.py:86-116 | blank text gives []; otherwise the sentences are scheduled cumulatively from 0.0 with estimated durations |
| Transcript.SegmentUntimed | translate_and_dub.py:86-116 | the untimed segmentation, as the source computes it |
| Transcript.ScheduleSentences | translate_and_dub.py:105-116 | the `tempo_atual` loop computes the cumulative schedule |
| Transcript.LoadTranscript | translate_and_dub.py:119-127 | the timed reading is returned whenever it is non-empty, and only otherwise the untimed one |
| TranscriptWriter.ParseWhole | translate_and_dub.py:16 | a run of digits followed by a character that is neither a digit nor a dot is read as a whole number, and the rest is left over |
| TranscriptWriter.ParseFraction | translate_and_dub.py:16 | digits, a dot and digits followed by a non-digit are read as that decimal number, and the rest is left over |
| TranscriptWriter.ParseRendered | translate_and_dub.py:16 | a rendered decimal numeral followed by a non-digit, non-dot character parses back to its value |
| TranscriptWriter.StripFormatted | translate_and_dub.py:175 | stripping a written line only trims the text's trailing whitespace |
| TranscriptWriter.MatchLine | translate_and_dub.py:47-51 | the range pattern, applied to a written line, gives back both numbers and the text after the spaces |
| TranscriptWriter.MatchFormatted | translate_and_dub.py:47-51 | the range pattern on a stripped written line yields the entry's start, end and text |
| TranscriptWriter.TextGroup | translate_and_dub.py:51-57 | the text group of a non-blank line, stripped again, is the stripped text and is not empty, so the segment is kept |
| TranscriptWriter.PickFormatted | translate_and_dub.py:47-57 | a written line reads back as one segment (strip(text), a, max(0.2, b − a)) |
| TranscriptWriter.FormattedNoBreak | translate_and_dub.py:175 | a written line holds no line break |
| TranscriptWriter.ReadEntries | translate_and_dub.py:173-175 | the written segment lines read back, line by line, to the written entries |
| TranscriptWriter.FilledKnown | translate_and_dub.py:74-76 | written lines all carry an end, so gap filling changes nothing |
| TranscriptWriter.RuleFacts | translate_and_dub.py:172 | the 60 `=` separator the writer emits is a header rule for the reader |
| TranscriptWriter.WrittenLines | translate_and_dub.py:170-175 | `splitlines` of a written file gives the header, the rule, one empty line, then the segment lines |
| TranscriptWriter.LoadWritten | translate_and_dub.py:119-127 | a written file without a rule in its header loads back to (strip(text), a, max(0.2, b − a)) for each written line, in order |
| TranscriptWriter.LoadTranslationFile | translate_and_dub.py:170-175 | the translated transcript the tool writes loads back to its entries |
| TranscriptWriter.TranslationReadBack | translate_and_dub.py:173-175 | writing segments whose start and end render exactly and reading them back gives each segment's stripped text, its start, and max(0.2, duration) |
| TranscriptWriter.LoadCaptionFile | youtube_tool.py:230-237 | a saved captions file, with a title and language free of line breaks, loads back to its entries |
| TranscriptWriter.CaptionHeader | youtube_tool.py:231-232 | the two header lines of a captions file are never mistaken for the rule |
| Captions.CaptionsReadBack | youtube_tool.py:234-237 | each saved caption reads back as (strip(text), max(start, 0), max(0.2, clamped duration)), in order |
| Naming.RemoveForbidden | youtube_tool.py:141 | the cleaned name has none of `\ / * ? : " < > \|` and is no longer than the title |
| Naming.RemoveForbiddenAppend | youtube_tool.py:141 | removal works character by character and keeps the order of what remains |
| Naming.RemoveForbiddenFixed | youtube_tool.py:141 | a name without forbidden characters is left unchanged |
| Naming.CleanedHasNoForbidden | youtube_tool.py:141-142 | stripping dots and spaces adds no forbidden character |
| Naming.Sanitize | youtube_tool.py:139-143 | the name is non-empty, at most 150 characters, free of forbidden characters and never starts with `.` or space; it ends in neither when the stripped name fits; it is "video" when nothing is left, and otherwise a prefix of the stripped name of length min(len, 150) |
| Naming.SanitizeIdempotent | youtube_tool.py:139-143 | when the stripped name fits in 150 characters, sanitizing again changes nothing |
| Naming.SanitizeFixed | youtube_tool.py:139-143 | a name of 1 to 150 characters, without forbidden characters and without a dot or space at either end, is its own sanitized form |
| Naming.SanitizeNotIdempotent | youtube_tool.py:142-143 | there is a title for which sanitizing twice differs from once, because cutting to 150 can leave a trailing dot |
| Naming.SnippetFields | youtube_tool.py:106-117 | a missing text is "", missing times are 0.0, and start and duration are max(x, 0.0) |
| VideoId.FirstRun | youtube_tool.py:135 | the scan finds the leftmost position where eleven id characters start, or reports that none does |
| VideoId.SearchId | youtube_tool.py:134-136 | the generic search returns the leftmost run of 11 `[A-Za-z0-9_-]` characters, and None iff there is no such run |
| VideoId.Take | youtube_tool.py:132 | `s[:n]` is the prefix of length min(len(s), n) |
| VideoId.ExtractVideoId | youtube_tool.py:120-136 | a `/watch` page on a YouTube host gives the first `v` or None, with no fallback; `youtu.be` gives the path without its leading `/` characters, cut to 11 characters; another page on a YouTube host gives its `/embed/`, `/shorts/` or `/v/` id when there is one; every remaining address gives the first run of 11 id characters found anywhere in the URL; every result other than a `/watch` or `youtu.be` one is a well-formed id, while a `/watch` page returns its `v` value unchecked |
| VideoId.EmbeddedIdIsId | youtube_tool.py:128-130 | an embed, shorts or `/v/` match is a well-formed id |
| VideoId.EmbedRoundTrip | youtube_tool.py:124-130 | `/embed/`, `/shorts/` or `/v/` plus an id, on any YouTube host, gives back that id whatever follows |
| VideoId.ShortLinkRoundTrip | youtube_tool.py:131-132 | a `youtu.be/<id>` address gives back the id whatever follows it |
| Download.Lookup | youtube_tool.py:148 | a name exists iff some entry of the folder carries it |
| Download.ValidMembers | youtube_tool.py:148 | the filtered list holds exactly the non-empty candidates that exist |
| Download.MaxByIsFirstMax | youtube_tool.py:151 | `max` returns a file that no file beats on (size, mtime), and that strictly beats every file before it, so ties go to the first |
| Download.BestIsLargest | youtube_tool.py:146-151 | nothing is returned iff no candidate exists; otherwise the result is an existing candidate and none is larger |
| Download.ExistingCandidates | youtube_tool.py:148 | the filtering loop keeps exactly the existing candidates, in order |
| Download.LargestOf | youtube_tool.py:151 | the max loop returns the first largest file |
| Download.ChooseLargest | youtube_tool.py:146-151 | the method computes the specified choice |
| Download.LastDot | youtube_tool.py:176 | finds the rightmost dot, or reports that there is none |
| Download.Ext | youtube_tool.py:176 | `splitext` gives a suffix of the name: "" or the part from the last dot on, which holds no further dot; it is "" exactly when there is no dot or only dots precede the last one |
| Download.TierMembers | youtube_tool.py:170-181 | a name is collected in a tier iff a listed regular file with a video extension carries it and matches the tier's prefix or tag |
| Download.CollectTier | youtube_tool.py:170-181 | each listing loop collects exactly its tier, in listing order |
| Download.TierExists | youtube_tool.py:170-181 | every collected name exists |
| Download.FindDownloaded | youtube_tool.py:154-200 | the method tries exact names, then the prefix tier, then the tag tier, as specified |
| Download.FoundExactFirst | youtube_tool.py:156-164 | if any exact name exists, the result is the largest existing exact name, whatever else is in the folder |
| Download.FoundPrefixSecond | youtube_tool.py:166-185 | with no exact name and a listable folder, a video file starting with the prefix (any case) means the result comes from the prefix tier |
| Download.FoundIsCandidate | youtube_tool.py:154-200 | a found file exists; it is an exact name, or a listed regular video file with the prefix or the tag (then only if the folder is listable) |
| Download.FoundNothing | youtube_tool.py:154-200 | nothing is found iff no exact name exists and either the folder cannot be listed or no video file matches the prefix or the tag |
| Text.TrimStart | youtube_tool.py:132 | `lstrip` drops exactly the longest prefix in the character class |
| Text.StripCharsSlice | dubbing.py:131 | `strip` keeps a contiguous middle slice and removes only class characters from both ends |
| Text.StripEmptyIffBlank | translate_and_dub.py:36 | a stripped line is empty iff the line is all whitespace |
| Text.WordCountIsWords | translate_and_dub.py:22 | the counted words are the words `split()` yields |
| Text.LinesCons | translate_and_dub.py:28 | `splitlines` of a line, a line feed and the rest is that line followed by the lines of the rest |
| Text.ContainsFrom | youtube_tool.py:197 | `t in s` holds iff t occurs at some position of s |

## Left out

- FFmpeg, ffprobe and edge-tts are outside the model.
  - Their outcomes are the oracles `synthOk` (per segment index), `probe` (the measured length, where 0 means unmeasurable) and `mixOk`.
  - Return codes ignored by the source (dubbing.py:122, 210, 270) are not modelled.
  - `_obter_duracao_audio` is the `probe` oracle.
- A failure of `_ajustar_segmento_para_janela` is folded into `synthOk` together with synthesis failures. The source catches both with the same `except`.
- Float rendering (`.6f` in filters, `.2f` in transcripts, `str(duracao_total)`) is not modelled.
  - Filter stages stay reals.
  - Transcript numbers are decimal numerals.
- TranscriptWriter.TranslationReadBack: it holds only for times that render exactly. Rounding to two decimals is not modelled.
- Reading and writing files, temporary-file removal, progress messages and the mix filter file are left out. Written files are modelled as the text they would hold (`TranscriptWriter.WriteTranscript`, `TranscriptWriter.CaptionFile`).
- `_salvar_transcricao`'s file name (`sanitizar_nome(titulo)` + suffix) and size report are left out.
- Captions.CaptionsReadBack: it requires caption texts that are non-blank and free of line breaks. Other captions are dropped or split by the reader.
- TranscriptWriter.LoadCaptionFile: it requires a title and language label without line breaks. With a line break, extra header lines would be written.
- `urlparse` and `parse_qs` are library calls. Their results are the `UrlParts` input, and `url.strip()` is assumed already applied to them.
- `os.path.join` is left out. Candidates are names inside the folder. An exact candidate "exists" if any entry carries the name, directories included, as `os.path.exists` behaves. `Download.Lookup` takes the first entry of a name, since a folder has one entry per name.
- Assembly.Join: `os.path.join` in the work folder is the POSIX form `dir + "/" + name`. The Windows separator `\`, used when `os.name == "nt"`, is not modelled.
- Text.Lower: it lowercases ASCII letters only. Python's `str.lower` is Unicode-aware.
- Transcript.LeadingDigits: `\d` is taken as the ASCII digits. Python's `\d` on `str` also matches other Unicode digits.
- `splitlines` is modelled as a split at each line-break character, so `\r\n` yields an extra empty line. Empty lines never reach the body, so the body is the same.
- `float(...)` in `_campos_snippet` and `_normalizar_segmentos` is left out. Values are already reals, and non-numeric values (which raise) are not modelled.
- A snippet whose text field is present but `None` is not modelled. A field is either present with a string or missing.
- `list.sort` is a library call. It is specified by `Normalize.SortByStart`, a stable insertion sort, with the properties proved about it.
- Async scheduling is left out. The synthesis loop is sequential, each call awaited in turn.
- Also left out:
  - the translation loop of `traduzir_transcricao_para_dublagem` (network calls with timeouts);
  - yt-dlp, the transcript API and deep-translator;
  - cookie handling, FFmpeg discovery, `criar_pasta_video` and the interactive `main`;
  - `audio_enhancer.py`, `server.py` and `telegram_bot.py`.
