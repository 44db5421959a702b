# pyannote-audio-elan, modelled in Dafny

`pyannote-audio-elan.py` is a local recognizer for the ELAN annotation tool.
ELAN starts it with the recognizer's parameters on standard input, one
`<param name="...">value</param>` element per line, and `VAD` or nothing as
its first argument. The script then:

1. collects the parameters into a dictionary;
2. gives up when no output file was named;
3. chooses between voice activity detection and speaker diarization;
4. builds the keyword arguments for the diarization pipeline (speaker
   counts, and embeddings when a speaker-verification file was given);
5. runs a pyannote.audio pipeline, reporting `PROGRESS:` lines through a
   hook object;
6. groups the resulting speech turns by speaker;
7. when verification was requested, renames each speaker after the nearest
   reference voice;
8. writes the turns out as an ELAN tiers XML file.

The project models each of these steps apart from running the pipeline
itself. Each module follows one part of the script:

| module | file | what it models |
|---|---|---|
| `Wrappers` | `wrappers.dfy` | `Option` and `Result` |
| `Text` | `text.dfy` | `str.strip()`, substring search, `int()` on a string, `str()` of an integer, `str.capitalize()` |
| `ElanParams` | `elan_params.dfy` | the parameter-reading loop and the output check |
| `Startup` | `startup.dfy` | the mode, the required look-ups and the speaker-count arguments |
| `ProgressHook` | `progress_hook.dfy` | the `ELANProgressHook` class, modelled as a Dafny class whose `Call` updates the stage counter in place |
| `Diarization` | `diarization.dfy` | grouping turns by speaker, and matching speakers to reference voices |
| `TiersXml` | `tiers_xml.dfy` | the writes that produce the tiers file |

The model relies on these conventions:

- **Python dictionaries.** They are insertion-ordered, and the tiers are
  written in that order. `Diarization.SpeakerTable` keeps the key order
  beside the map. Assigning to an existing key keeps its place; a new key
  goes to the end.
- **Times.** Times are whole milliseconds. `f"{t:.3f}"` renders them as
  seconds with exactly three decimals (`TiersXml.FormatSeconds`).
- **Written output.** The output file is the sequence of strings passed to
  `write`. Each is a `TiersXml.Line` whose exact text `TiersXml.Render`
  gives.
- **The parameter regex.** The pattern `<param name="(.*?)".*?>(.*?)</param>`
  is modelled as four chained first-occurrence searches
  (`ElanParams.MatchParam`). The lemmas prove three things about it:
  - the result is the leftmost, shortest match, as a leftmost non-greedy
    regex search returns it;
  - a match is found whenever one exists;
  - on a line as read from standard input, no candidate match contains a
    newline, so the pattern's `.` never matters.
- **`max_speakers` as written.** The script passes the value of
  `min_speakers` as `max_speakers` (line 146). The model keeps this
  behaviour. `Startup.MaxSpeakersCopiesMin` and `Startup.MaxWithoutMinFails`
  state its consequences.

## Model

| member | source | states |
|---|---|---|
| `Text.StripSpec` | pyannote-audio-elan.py:92 | `strip()` removes whitespace, and only whitespace, from both ends, and leaves no whitespace at either end of the result |
| `Text.StripUnique` | pyannote-audio-elan.py:92 | any string that is `s` with whitespace removed from both ends, and with no whitespace left at either end, is `strip(s)` |
| `Text.StripIdempotent` | pyannote-audio-elan.py:92 | stripping an already stripped value changes nothing |
| `Text.FindFrom` | pyannote-audio-elan.py:90 | the search returns the first position at or after the start where the pattern occurs, or none when it occurs nowhere there |
| `Text.ParseIntNeedsDigit` | pyannote-audio-elan.py:136-146 | `int()` succeeds only on text containing a decimal digit |
| `Text.IntSpaceSpec` | pyannote-audio-elan.py:136-146 | the whitespace `int()` skips around a literal is every `str.isspace()` character except the ASCII separators U+001C to U+001F |
| `Text.ParseIntPadded` | pyannote-audio-elan.py:136-146 | `int()` reads a run of decimal digits, with an optional `+` or `-` and any whitespace it skips around it, as that signed number |
| `Text.AsciiSeparatorRejected` | pyannote-audio-elan.py:136-146 | U+001C is not skipped, so `int('\x1c5')` raises `ValueError` |
| `Text.SeparatorRejectedBesideNonAscii` | pyannote-audio-elan.py:136-146 | U+001C is not skipped next to non-ASCII text either, so `int('\x1c5\xa0')` raises `ValueError` |
| `Text.NonAsciiSpaceSkipped` | pyannote-audio-elan.py:136-146 | non-ASCII whitespace is skipped, so `int('\x855\xa0')` is 5 |
| `Text.IntRoundTrip` | pyannote-audio-elan.py:136-146 | `int(str(n)) == n` for every integer, negative ones included |
| `Text.Capitalize` | pyannote-audio-elan.py:73 | `capitalize()` keeps the length, upper-cases the first character and lower-cases all the others |
| `ElanParams.MatchParamSound` | pyannote-audio-elan.py:90 | when the search reports a match, it is the leftmost one with the shortest NAME, the shortest run up to `>` and the shortest VALUE, and the groups are NAME and VALUE |
| `ElanParams.MatchParamComplete` | pyannote-audio-elan.py:90-91 | whenever the pattern can match a line anywhere, the search reports a match |
| `ElanParams.MatchAvoidsNewline` | pyannote-audio-elan.py:89-90 | in a line read from standard input, no match contains a newline |
| `ElanParams.ReadParams` | pyannote-audio-elan.py:89-92 | the loop's dictionary is the one defined line by line by `ParamsOf` |
| `ElanParams.NonMatchingLineKeepsParams` | pyannote-audio-elan.py:91-92 | a line without a match leaves the dictionary unchanged |
| `ElanParams.MatchingLineSetsParam` | pyannote-audio-elan.py:91-92 | a matching line sets its NAME to its stripped VALUE and leaves every other name and value unchanged |
| `ElanParams.LastNamingSpec` | pyannote-audio-elan.py:89-92 | the line found is the last line naming the parameter; when none is found, no line names it |
| `ElanParams.ParamsOfLastWins` | pyannote-audio-elan.py:89-92 | a name is in the dictionary exactly when some line names it, and its value is the stripped VALUE of the last such line |
| `ElanParams.HasOutputFromLines` | pyannote-audio-elan.py:89-96 | the output check passes exactly when the last line naming `output_segments` carries a VALUE that is not all whitespace |
| `Startup.ModeOf` | pyannote-audio-elan.py:108-109 | the mode is VAD exactly when there is a first argument and it is `VAD` |
| `Startup.FirstMissing` | pyannote-audio-elan.py:117-127 | it reports none exactly when every required key is present; otherwise it reports the first absent key in look-up order |
| `Startup.SpeakerCountArgs` | pyannote-audio-elan.py:136-146 | it computes the speaker-count arguments, or the first `KeyError`/`ValueError`, as `CountArgsOf` defines them |
| `Startup.CountArgsAgreeWithParams` | pyannote-audio-elan.py:136-146 | a successful run has all three parameters and adds exactly the arguments whose parameter is not its sentinel (`Unknown` or `_`), each holding the parsed integer |
| `Startup.CountArgsShape` | pyannote-audio-elan.py:136-146 | the dictionary the three `if`s build holds `num_speakers` exactly when it is not `Unknown`, `min_speakers` and `max_speakers` exactly when each is not `_`, and nothing else; the two bounds both hold the value parsed from `min_speakers` |
| `Startup.SentinelsAreNotIntegers` | pyannote-audio-elan.py:137-145 | `int()` rejects both sentinels |
| `Startup.MaxSpeakersCopiesMin` | pyannote-audio-elan.py:140-146 | whenever `max_speakers` is passed, `min_speakers` is passed too, with the same value |
| `Startup.MaxWithoutMinFails` | pyannote-audio-elan.py:140-146 | when `max_speakers` is set but `min_speakers` is `_`, the run fails with `ValueError` on `_` |
| `Startup.CountArgsFailures` | pyannote-audio-elan.py:136-146 | the conversion fails exactly when a parameter is missing, a set count is not an integer, or `max_speakers` is set without `min_speakers`; a `KeyError` names an absent key, and a `ValueError` names text `int()` rejects |
| `Startup.DiarizationArgs` | pyannote-audio-elan.py:124-158 | it succeeds exactly when `min_duration_off` is present, the speaker counts convert and a named verification file comes with `auth_token`; a `KeyError` names an absent key and a `ValueError` is the speaker counts' own, on text `int()` rejects; on success the arguments are the speaker counts, plus `return_embeddings` set to true exactly when a verification file is named, and nothing else |
| `Startup.Start` | pyannote-audio-elan.py:89-158 | it fails with the missing-output error exactly when the check at 94 fails; it gets past lines 102-158 exactly when the output is named, `source` and `checkpoint` and the mode's look-ups are present, and, for diarization, the speaker counts convert and a named verification file comes with `auth_token`; a `KeyError` names a key absent from the dictionary, and a `ValueError` comes only from the speaker counts, on text `int()` rejects; on success it records the dictionary read plus `mode`, which follows the first argument; the keyword arguments are at most the three counts and `return_embeddings`; VAD has none; diarization has the speaker-count arguments and adds `return_embeddings` exactly when a verification file is named |
| `ProgressHook.StagesFor` | pyannote-audio-elan.py:38-41 | four stages for diarization, one for anything else |
| `ProgressHook.ElanProgressHook.constructor` | pyannote-audio-elan.py:33-41 | a new hook is at stage 0, has seen no step, and has the mode's stage count |
| `ProgressHook.ElanProgressHook.Call` | pyannote-audio-elan.py:49-76 | a new step name advances the stage; a missing `completed` counts as one of one; a missing `total` raises `TypeError` and a zero `total` `ZeroDivisionError`; otherwise it reports the overall progress, the capitalised step name and both counts |
| `ProgressHook.Progress` | pyannote-audio-elan.py:61-72 | the reported fraction is never negative |
| `ProgressHook.ProgressBelowDone` | pyannote-audio-elan.py:58-72 | up to the last stage the report stays at or below 0.99, so ELAN never sees completion before the output exists |
| `ProgressHook.ProgressMonotone` | pyannote-audio-elan.py:61-72 | within a stage, the report never goes down as the stage's fraction grows |
| `ProgressHook.ProgressMonotoneInCompleted` | pyannote-audio-elan.py:61-72 | for a fixed positive total, more completed items never lower the report |
| `ProgressHook.ProgressAcrossStages` | pyannote-audio-elan.py:58-72 | any report in one stage is at most any report in the next stage |
| `ProgressHook.ProgressContinuous` | pyannote-audio-elan.py:58-62 | the end of one stage and the start of the next are reported alike |
| `Diarization.SpeakerTable.Insert` | pyannote-audio-elan.py:272-274 | `d[k] = v` keeps the keys distinct; a new key goes last, an existing key keeps its place, and the value is replaced |
| `Diarization.InsertOverwrites` | pyannote-audio-elan.py:272-274 | writing a key twice leaves the second value, in the place the first write gave it |
| `Diarization.GroupBySpeaker` | pyannote-audio-elan.py:270-274 | the loop's dictionary is the one defined track by track by `Grouped` |
| `Diarization.GroupedContents` | pyannote-audio-elan.py:270-274 | the speakers are exactly the labels that occur, and each holds its own turns in track order |
| `Diarization.GroupedOrder` | pyannote-audio-elan.py:270-274 | speakers are listed in the order of their first turn |
| `Diarization.GroupedListsAll` | pyannote-audio-elan.py:270-274 | every speaker holding turns is listed for the tier loop |
| `Diarization.GroupedTurnCount` | pyannote-audio-elan.py:270-274 | grouping neither loses nor invents a turn: the lists hold one turn per track |
| `Diarization.NearestIsFirstMinimum` | pyannote-audio-elan.py:290-298 | the scan picks the first reference at the strictly smallest distance below 1.0, and picks none exactly when no distance is below 1.0 |
| `Diarization.MatchOfSpec` | pyannote-audio-elan.py:290-300 | a speaker is renamed to `r` exactly when `r` is a non-empty id of the first nearest reference |
| `Diarization.LastMatch` | pyannote-audio-elan.py:283-303 | it finds the last speaker matched to a reference, or reports that none is |
| `Diarization.IdentifiedLastWins` | pyannote-audio-elan.py:281-305 | a reference id appears in `identified_speakers` exactly when some speaker matches it, and it holds the turns of the last such speaker |
| `Diarization.IdentifiedNamesAreReferences` | pyannote-audio-elan.py:281-305 | every name after renaming is a non-empty reference id that some speaker is nearest to |
| `Diarization.IdentifiedListsAll` | pyannote-audio-elan.py:281-305 | every renamed speaker is listed for the tier loop |
| `Diarization.IdentifySpeakers` | pyannote-audio-elan.py:281-305 | the nested scan loops compute the dictionary defined speaker by speaker by `Identified` |
| `TiersXml.FormatSecondsValue` | pyannote-audio-elan.py:324-325 | a time is rendered as whole seconds, a point and three digits, and reading those digits back gives the time |
| `TiersXml.TierNameDistinct` | pyannote-audio-elan.py:316-319 | with the verification flag fixed, two speakers get the same tier name only if they are the same speaker; unverified names are `PyannoteAudio_` followed by the speaker, which can be read back from the name |
| `TiersXml.RenderOneLine` | pyannote-audio-elan.py:311-327 | every write is exactly one line of the file: it ends in a line break and holds no other, provided the speaker label carries no line break |
| `TiersXml.WriteHeader` | pyannote-audio-elan.py:310-313 | the first two writes are the XML declaration and the opening `<TIERS>` tag |
| `TiersXml.WriteTier` | pyannote-audio-elan.py:315-327 | one speaker gets its opening tag, one span per turn in order, and `</TIER>` |
| `TiersXml.WriteTiers` | pyannote-audio-elan.py:309-329 | the writes are exactly the text of `Document`: header, one tier per speaker in dictionary order, then `</TIERS>`; there is one write per line of `Document`, and write `k` is the text of line `k` |
| `TiersXml.BlocksLength` | pyannote-audio-elan.py:315-327 | each speaker contributes two lines plus one per turn |
| `TiersXml.DocumentTier` | pyannote-audio-elan.py:315-327 | speaker `i`'s tier starts after the lines of the speakers before it; it opens with that speaker's name (prefixed `PyannoteAudio_` unless verified), holds one span per turn in order, and closes |
| `TiersXml.DocumentFrame` | pyannote-audio-elan.py:309-329 | the file starts with the declaration and `<TIERS>`, ends with `</TIERS>`, and its length is 3 lines plus 2 per speaker plus 1 per turn |
| `TiersXml.WriteOutput` | pyannote-audio-elan.py:270-329 | grouping, optional renaming and writing together produce the document for the renamed or the grouped speakers |
| `TiersXml.UnverifiedOutputSize` | pyannote-audio-elan.py:270-329 | without verification the file has 3 lines, plus 2 per distinct speaker label, plus 1 per track |

## Left out

- Loading and running the pyannote.audio pipelines (lines 176-267) is left out. This covers the checkpoint test, `instantiate`, the choice of device and the timing. The pipeline's tracks, its label order and the speaker distances are inputs of `TiersXml.WriteOutput`.
- Reading the speaker-verification CSV and computing embeddings (lines 156-174) are left out: they are audio I/O and neural-network code. The reference ids, in the dictionary's order, are an input.
- The cosine distances (lines 288-294) are numeric library code. They are an input, one row per output label.
- Diarization.IdentifySpeakers: the requirement `WellShaped` assumes the pipeline returns one embedding per label and only labels that occur in the tracks. The script relies on this without checking it.
- Startup.Start: `html.unescape` of `source` and `checkpoint` (lines 102-103) is not modelled. The values are kept as read.
- Startup.Start: the `float()` conversions of `onset`, `offset`, `min_duration_on` and `min_duration_off` (lines 119-127) are modelled only as look-ups that can raise `KeyError`. The `ValueError` from malformed numbers, and the numbers themselves, are not modelled.
- Startup.Start: the hyperparameters set for a local checkpoint (lines 209-218) are pipeline configuration and are not modelled.
- ProgressHook.ElanProgressHook.Call: `Report` carries the values of the `PROGRESS:` line. The formatting with `:.2f` and the printing are not modelled, and the fraction is an exact real rather than a binary float.
- TiersXml.FormatSecondsValue: times are whole milliseconds. Float times and the rounding of `:.3f` are not modelled.
- Text.ParseIntNeedsDigit: `int()` is modelled for ASCII digits, an optional sign and single underscores between digits. Surrounding whitespace follows CPython: `int()` skips tab, line feed, vertical tab, form feed, carriage return, space and the non-ASCII `str.isspace()` characters, but never U+001C to U+001F. Non-ASCII digits, which CPython also accepts, are not modelled.
- Text.IntRoundTrip: the limit on the number of digits `int()` and `str()` accept (4300 by default from Python 3.11) is not modelled. The round trip is stated for integers of any size.
- Text.Capitalize: only ASCII letters change case. Python's full Unicode case mapping is not modelled.
- ElanParams.MatchParamSound: the model lets `.` match a newline. `ElanParams.MatchAvoidsNewline` shows this makes no difference for lines read from standard input, the only lines the script searches.
- Printing is not modelled: the debug and status lines, and the final `RESULT: DONE.`. Exiting after the failed output check is `Err(MissingOutput)`.
- The hook's `__enter__`, `__exit__` and its unused `transient` argument do nothing and are not modelled.
