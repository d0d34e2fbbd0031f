# Tech-tip video generator: parsing and batch bookkeeping

The repository has two near-identical scripts. One is `scripts/generate_videos_local.py`; the
other is `scripts/generate_videos.py`, an older variant that uses the pre-1.0 OpenAI client. Each
script asks a chat model for a handful of short tech tips. It narrates each tip with text-to-speech
and renders it as a vertical video. Finally it writes `outputs/videos_log.json`, which lists the
tips and their video files.

This Dafny project models the logic the scripts themselves contain:

- **The tip-reply parser** of `generate_tech_tips`, everything after the request. The reply
  text is split into lines and blank lines are dropped. The rest are stripped, lose a leading
  one-digit enumeration marker (`1.` / `1)`) and are collected in order. When this gives fewer
  than `num_tips` entries, the raw text is re-split into sentences after `.`, `!` or `?` instead,
  and the sentences longer than ten characters are kept. The result is cut to `num_tips`. The two
  scripts remove the marker differently, so there is one module per script: `LocalTips` and
  `RemoteTips`. The remote parser cuts after the first `.` anywhere in the line. It reads
  `line[1]` without a length check, so a line holding one digit alone raises `IndexError`. That is
  modelled as an `Err` result.
- **The clip-duration rule** of `build_video`, which is the same in both scripts. An explicit
  duration that Python treats as true (neither `None` nor zero) is used as it is. Otherwise the
  narration length plus half a second is clamped to [8, 25] seconds (`Clip`).
- **The batch loop** of `__main__`, which is also the same in both scripts (`Batch`):
  - the stock clip is chosen round-robin (`i % n`), or none when there are no candidates;
  - the output name is `outputs/tech_tip_<clock>_<i+1>.mp4`;
  - the log is append-only, with one `{tip, file}` entry per tip, in tip order.

  The video build is an opaque step. For each tip, the clock reading and whether `build_video`
  returned or raised are inputs. A build that raises ends the script before the log is written.

Python's string primitives are modelled on code points, in `Chars`:

- `str.isspace`, with Python 3's exact whitespace set;
- `str.strip()`;
- `str.splitlines()`, with all of its boundaries, where `\r\n` counts as one boundary;
- `str(n)`;
- `str.isdigit`, restricted to the ASCII digits.

`Selection` models the list comprehension `[f(x) for x in xs if keep(x)]` and the slice `xs[:n]`.
`Sentences` models `re.split(r'(?<=[.!?]) +', text)` and the fallback filter.

A returned tip can be empty, in both scripts. A bare marker line such as `1.` is not blank, so
it is kept. Once its marker is removed it becomes `""`, which is appended and can be returned.
`LocalTips.BareMarkerKeptEmpty` states this for the local script, and `RemoteTips.DotMarkedLine`
with an empty body states it for the other one.

## Model

| member | source | states |
|---|---|---|
| Chars.Strip | scripts/generate_videos_local.py:53 | the result is stripped; the input is leading whitespace, then the result, then trailing whitespace; the result is empty exactly when the line is all whitespace |
| Chars.StripUnique | scripts/generate_videos_local.py:53 | any split of a string into whitespace, a stripped core and whitespace has `strip()` equal to that core |
| Chars.StripIdempotent | scripts/generate_videos_local.py:53 | stripping twice is stripping once |
| Chars.SplitLines | scripts/generate_videos_local.py:52 | no resulting line contains a line boundary; there are never more lines than characters |
| Chars.IsSpace | scripts/generate_videos_local.py:53 | the code points `str.isspace` accepts, which `strip()` removes |
| Chars.IsLineBreak | scripts/generate_videos_local.py:52 | the boundaries `str.splitlines` splits at, every one of them whitespace |
| Chars.SplitLinesFirst | scripts/generate_videos_local.py:52 | a line without boundaries followed by `\n` or by `\r\n` is split off as the first line; `\r\n` is one boundary |
| Chars.SplitLinesBreakFree | scripts/generate_videos_local.py:52 | a non-empty text without boundaries is one line |
| Chars.SplitLinesLast | scripts/generate_videos_local.py:52 | a last line followed by at most one separator is one line, and an empty last line is one only when the separator follows it |
| Chars.SplitLinesCons | scripts/generate_videos_local.py:52 | one more line in front of joined lines is one more line in front of their split |
| Chars.SplitLinesJoined | scripts/generate_videos_local.py:52 | lines without boundaries joined by `\n` or `\r\n`, with or without one more separator at the end, split back into exactly those lines |
| Chars.IsDigit | scripts/generate_videos_local.py:57 | `str.isdigit` on one character, restricted to the ASCII digits |
| Chars.IndexOf | scripts/generate_videos.py:46 | the first position of the character, or the length when absent, which is exactly when the character is not in the string |
| Chars.Decimal | scripts/generate_videos_local.py:146 | `str(n)` is a non-empty string of decimal digits |
| Chars.DecimalRoundTrip | scripts/generate_videos_local.py:146 | reading `str(n)` back gives `n` |
| Chars.DecimalInjective | scripts/generate_videos_local.py:146 | different numbers give different `str(n)` |
| Selection.FilterMap | scripts/generate_videos_local.py:51-63 | an append-if loop yields no more elements than its input |
| Selection.Positions | scripts/generate_videos_local.py:52-55 | the kept positions are exactly the positions whose element passes the filter, strictly increasing |
| Selection.FilterMapAt | scripts/generate_videos_local.py:51-63 | the k-th element of the result is the mapped k-th kept element; the result has as many elements as are kept |
| Selection.FilterMapStep | scripts/generate_videos_local.py:63 | one more input element appends its mapped value when kept and nothing otherwise |
| Selection.FilterMapAgree | scripts/generate_videos.py:45-47 | two maps that agree on every kept element build the same list |
| Selection.FilterMapKeepsAll | scripts/generate_videos_local.py:68 | when every element is kept, the result is the element-wise map |
| Selection.Take | scripts/generate_videos_local.py:69 | `xs[:n]` is a prefix of `xs` of length `min(len(xs), n)`, never padded |
| Sentences.BoundaryAt | scripts/generate_videos_local.py:67 | the pattern can start a match at a space right after `.`, `!` or `?` |
| Sentences.FirstBoundary | scripts/generate_videos_local.py:67 | the first place at or after `from` where a space follows `.`, `!` or `?`, with no such place before it |
| Sentences.SpaceRunEnd | scripts/generate_videos_local.py:67 | the greedy ` +` consumes exactly the run of spaces and stops at a non-space or the end |
| Sentences.SplitSentences | scripts/generate_videos_local.py:67 | `re.split` always gives at least one piece, and no piece contains a terminator followed by a space |
| Sentences.SplitJoinSentences | scripts/generate_videos_local.py:67 | sentences joined by single spaces split back into exactly those sentences, followed by the unterminated tail |
| Sentences.SplitAfterSentence | scripts/generate_videos_local.py:67 | a sentence followed by one space and a non-space is split off as the first piece |
| Sentences.IsLong | scripts/generate_videos_local.py:68 | a piece is kept when its stripped form is longer than ten characters |
| Sentences.SplitParagraph | scripts/generate_videos_local.py:67 | sentences joined by single spaces, with nothing after the last one, split back into exactly those sentences |
| Sentences.SentenceTips | scripts/generate_videos_local.py:65-68 | the fallback returns at most `num_tips` entries, each stripped and longer than ten characters |
| Sentences.SentenceTipsInOrder | scripts/generate_videos_local.py:68 | the k-th fallback entry is the k-th long piece, stripped; all long pieces are returned, cut to `num_tips` |
| Sentences.ParagraphTips | scripts/generate_videos.py:48-52 | a paragraph of long sentences such as "First long sentence. Second long sentence." yields its first `num_tips` sentences |
| Replies.HasContent | scripts/generate_videos_local.py:53-55 | a line is kept exactly when it is not all whitespace |
| Replies.HasMarker | scripts/generate_videos_local.py:57 | the marker guard: at least two characters, a digit, then `.` or `)`; the same guard as scripts/generate_videos.py:45 once its length is known |
| LocalTips.CleanLine | scripts/generate_videos_local.py:53-62 | every appended entry is stripped |
| LocalTips.FindSeparator | scripts/generate_videos_local.py:59-61 | the scan stops at the first `.` or `)` at position 1 or later, or at the end of the line |
| LocalTips.RemoveMarker | scripts/generate_videos_local.py:57-62 | a marked line loses exactly its first two characters and is stripped again; any other line is unchanged |
| LocalTips.LineEntries | scripts/generate_videos_local.py:51-63 | the line entries are stripped, and there are no more of them than lines |
| LocalTips.LineStep | scripts/generate_videos_local.py:53-63 | one pass of the loop body appends exactly when the stripped line is not empty, and appends it with its marker removed |
| LocalTips.CleanLines | scripts/generate_videos_local.py:52-63 | the loop over the reply's lines builds exactly the filtered, cleaned list |
| LocalTips.ParseLines | scripts/generate_videos_local.py:51-63 | the loop builds exactly the filtered, cleaned list of the reply lines |
| LocalTips.LineEntriesAreContentLines | scripts/generate_videos_local.py:52-55 | blank lines contribute nothing; every other line contributes its cleaned form once, in reply order |
| LocalTips.TechTips | scripts/generate_videos_local.py:64-69 | at most `num_tips` tips, each stripped |
| LocalTips.GenerateTechTips | scripts/generate_videos_local.py:51-69 | the parser returns exactly `TechTips` of the reply |
| LocalTips.TechTipsCases | scripts/generate_videos_local.py:65-69 | with enough line entries the result is their first `num_tips`; otherwise it is the sentence fallback, all longer than ten characters |
| LocalTips.MarkedLine | scripts/generate_videos_local.py:57-62 | a marked line in any surrounding whitespace gives its body, stripped: `1. Use keyboard shortcuts.` gives `Use keyboard shortcuts.` |
| LocalTips.UnmarkedLine | scripts/generate_videos_local.py:57 | a lone character, a multi-digit marker such as `10.` and any other unmarked line are only stripped |
| LocalTips.BareMarkerKeptEmpty | scripts/generate_videos_local.py:54-63 | a bare `1.` is a content line whose entry is the empty string, and it is kept |
| LocalTips.Numbered | scripts/generate_videos_local.py:35 | the numbered reply the prompt asks for has one line per tip |
| LocalTips.NumberedLine | scripts/generate_videos_local.py:57-62 | `d. tip` is a content line whose entry is `tip` |
| LocalTips.NumberedLineShape | scripts/generate_videos_local.py:52-54 | `d. tip` has no line boundary and is not blank |
| LocalTips.NumberedReply | scripts/generate_videos_local.py:51-69 | a reply in the requested numbered shape gives back exactly its tips, with lines ending in `\n` or `\r\n` and with or without a final line ending |
| RemoteTips.IndexFault | scripts/generate_videos.py:45 | the lines on which `line[1]` is out of range: a stripped line that is one digit alone |
| RemoteTips.AnyFaultStep | scripts/generate_videos.py:40-45 | one more line raises exactly when it is a lone digit |
| RemoteTips.AfterFirstDot | scripts/generate_videos.py:46 | a line without `.` is unchanged; otherwise the result is stripped and shorter |
| RemoteTips.CleanLine | scripts/generate_videos.py:41-46 | every appended entry is stripped |
| RemoteTips.LineEntries | scripts/generate_videos.py:39-47 | the loop raises exactly when some line is a lone digit; otherwise there are no more entries than lines |
| RemoteTips.LineEntriesAreContentLines | scripts/generate_videos.py:40-47 | without a lone digit, blank lines contribute nothing and every other line contributes its cleaned form once, in reply order |
| RemoteTips.LineStep | scripts/generate_videos.py:41-47 | one pass of the loop body raises exactly on a lone digit, and otherwise appends the cleaned line |
| RemoteTips.ParseLines | scripts/generate_videos.py:39-47 | the loop raises exactly when some line is a lone digit, and otherwise builds the filtered, cleaned list |
| RemoteTips.TechTips | scripts/generate_videos.py:39-53 | the call raises exactly when some reply line is a lone digit; otherwise it returns at most `num_tips` stripped tips |
| RemoteTips.GenerateTechTips | scripts/generate_videos.py:39-53 | the parser returns or raises exactly as `TechTips` says |
| RemoteTips.TechTipsCases | scripts/generate_videos.py:48-53 | with enough line entries the result is their first `num_tips`; otherwise it is the sentence fallback, all longer than ten characters |
| RemoteTips.SplitAtFirstDot | scripts/generate_videos.py:46 | the line is cut right after its first `.`, whatever precedes it |
| RemoteTips.DotMarkedLine | scripts/generate_videos.py:45-46 | `1. Tip A.` gives `Tip A.` |
| RemoteTips.ParenMarkedLineCut | scripts/generate_videos.py:45-46 | `1) Copy. Paste it.` gives `Paste it.` |
| RemoteTips.ParenLineWithoutDot | scripts/generate_videos.py:46 | a `)`-marked line without any `.` is kept whole: `1) Tip` stays `1) Tip` |
| RemoteTips.LoneDigitRaises | scripts/generate_videos.py:45 | one lone-digit line makes the whole call raise, even where the fallback would apply |
| RemoteTips.CleanLineAgrees | scripts/generate_videos.py:45-46 | on lines without a `)` marker both scripts append the same entry |
| RemoteTips.AgreesWithLocal | scripts/generate_videos.py:39-53 | without `)` markers or lone digits the two scripts return the same tips |
| Clip.IsGiven | scripts/generate_videos_local.py:108 | Python truthiness of `duration`: neither `None` nor zero |
| Clip.ClipDuration | scripts/generate_videos_local.py:108 | an explicit true duration is used as given; otherwise the clip lies in [8, 25], equals narration + 0.5 inside that range, and is the nearer bound outside it |
| Clip.ClipDurationNearest | scripts/generate_videos.py:67 | of all lengths in [8, 25], the computed one is the nearest to narration + 0.5 |
| Clip.ClipDurationMonotonic | scripts/generate_videos.py:67 | a longer narration never gets a shorter clip |
| Clip.NarrationFits | scripts/generate_videos_local.py:108 | narration + 0.5 fits in the clip whenever it is at most 25 seconds; a 2-second narration gets 8 seconds |
| Batch.StockFor | scripts/generate_videos_local.py:148 | a stock clip is chosen exactly when there are candidates, and it is always one of them |
| Batch.StockFirstRound | scripts/generate_videos_local.py:144-148 | the first `n` tips use the `n` sorted candidates in order |
| Batch.StockPeriodic | scripts/generate_videos.py:113 | the choice repeats with period `n` |
| Batch.OutputPath | scripts/generate_videos_local.py:146-147 | the name `outputs/tech_tip_<clock>_<i+1>.mp4` |
| Batch.UnderscoreJoinInjective | scripts/generate_videos_local.py:146 | two digit strings joined by `_` can be separated again |
| Batch.OutputPathInjective | scripts/generate_videos_local.py:146-147 | an output name determines its clock reading and its index |
| Batch.Manifest | scripts/generate_videos_local.py:151 | the log of a successful run has one entry per tip |
| Batch.Requests | scripts/generate_videos_local.py:145-150 | the first `count` build calls, one per tip |
| Batch.FirstFailure | scripts/generate_videos_local.py:145-150 | the first tip whose build raises, with every earlier build returning |
| Batch.RunBatch | scripts/generate_videos_local.py:143-155 | builds are requested in tip order, up to and including the first that raises; the log is produced only when all return, and then it holds exactly one `{tip, file}` entry per tip, in order, with index i+1 |
| Batch.ManifestFilesDistinct | scripts/generate_videos.py:110-116 | no two log entries of one run name the same file |
| Batch.RequestsMatchManifest | scripts/generate_videos.py:113-116 | the i-th build is for the i-th tip and writes the file its log entry names; its stock clip is one of the candidates, present exactly when there are any |

## Left out

- The chat-completion request and the response-shape fallback (`generate_videos_local.py:37-49`, `generate_videos.py:31-37`) are network calls. The reply text is an input of the parser.
- The prompt text is left out, except as the numbered shape it asks for (`LocalTips.Numbered`).
- gTTS narration (`create_voice`) is an external service. The narration length is an input of `Clip.ClipDuration`.
- moviepy compositing, resize, crop, subclip, encoding, and PIL/TextClip rendering and font metrics are left out. They are video and raster library calls with floating-point geometry.
- `textwrap.fill` is a library call with no logic of the repository's own.
- File I/O is left out: directory creation, `glob`, the JSON dump of the log, temporary-file removal and `audio.close`. The sorted `glob` result is the input `candidates`, and `Batch.RunBatch` returns the log instead of writing it.
- `time.time` is an input for each tip. `time.sleep`, `uuid`, `load_dotenv`, the API-key check and `print` have no behaviour to state.
- Clip.ClipDuration: uses exact reals, so the float rounding of `aud_duration + 0.5` is not modelled.
- Chars.IsDigit: accepts only the ASCII digits, whereas `str.isdigit` also accepts other Unicode digits, such as superscripts, in the marker position.
- LocalTips.TechTips: `num_tips` is a natural number. Python's negative-slice meaning of `lines[:num_tips]` is not modelled, and both scripts always pass 5.
- Batch.RunBatch: the exception that `build_video` raises is an `Err` carrying the tip's index, and what the build does is not modelled.
