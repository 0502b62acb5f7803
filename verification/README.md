# comm-extract: a Dafny model of the extraction run

comm-extract is a small desktop tool. It walks a library of movie folders and finds the
audio tracks of each `.mkv` file whose name contains one of a list of keywords.
It then asks `mkvextract` to copy each such commentary track to a file of its own.
This project models the logic of its worker, `run_extraction` in `commextract.py`,
and proves properties of that model:

- **Keywords** (`keywords.dfy`): the comma-separated field is split, each piece
  stripped and lower-cased; the default field and the never-taken fallback.
- **Scan** (`scan.dfy`): the folders of the library and the `.mkv` files of a folder.
- **Metadata** (`metadata.dfy`): the part of `mkvmerge -J`'s report that is read,
  with every key optional and read with its documented default.
- **Selection** (`selection.dfy`): the audio tracks whose lower-cased name contains a
  keyword, in report order, each turned into the record the extraction step reads.
- **Codec** (`codec.dfy`): the part of the codec ID after the last slash, and the
  first-match prefix table that turns it into a file extension.
- **Naming** (`naming.dfy`): the fallback name of an unnamed track, the replacement of
  `< > : " / \ | ? *` by `_`, and the `<movie> - <track>.<ext>` pattern.
- **Driver** (`driver.dfy`): the three nested loops with the cooperative `running`
  flag polled before each folder, file and track and once more at the end, the
  per-file error handling, and the final status.

The string operations the code relies on (`lower`, `strip`, `split`, `join`, `in`,
`startswith`, `endswith`, `str(int)`) are modelled in `text.dfy`; `optional.dfy`
holds an `Option` type.

The run is described by reference definitions and by what is proved about them:

- The **work plan**, `Driver.WorkPlan`: every folder listing, `mkvmerge -J` query and
  extraction an uncancelled run would do, in order. `Driver.Plan` is its extractions.
- The **trace**: the events of one run, meaning the flag observations, the work the
  run does, and the conditions the code logs. `Driver.RunOf` defines the trace and the
  final status of a run, one recursive definition per loop (`TrackRun`, `FileRun`,
  `FilesRun`, `FolderRun`, `MoviesRun`). Each loop of the code is a method proved
  equal to its definition.

A trace is valid when every observation sees the flag as the schedule sets it. Each
piece of work must come directly after a poll of its own loop that found the flag
set, and each such poll must be directly followed by its work. No extraction may
follow a poll that found the flag cleared, and every outcome must be what
`mkvextract` reported.

The `running` flag is a schedule `cancelAt`: observation number *k* sees the flag set
iff `cancelAt` is `None` or *k* < `cancelAt`. The flag is set once before the run and
only ever cleared afterwards, so this form covers every interleaving with the Cancel
button. Take a library whose every listing succeeds. A run over it ends Done exactly
when the schedule still has the flag set at observation `Driver.PollCount`, which
counts one poll per folder, per `.mkv` file and per commentary track. A run that ends
Done made exactly `PollCount` polls before the final one. A cancelled run stops at its
first poll that finds the flag cleared, and so may make fewer.

The model follows the code, including where its behaviour may be unexpected:

- Splitting always yields at least one piece. So the "no keywords, use `commentary`"
  branch (commextract.py:171-173) never runs. An empty or blank field gives the single
  empty keyword, and the empty keyword selects every audio track.
- The extension table is applied to the segment after the last slash. So Matroska's
  PCM IDs (`A_PCM/INT/LIT` and the like) and `A_AAC/MPEG4/LC` get `mka`, never `wav`
  or `aac`. The MP3 ID `A_MPEG/L3` gets `mka`, never `mp3`, because its segment is
  `L3`. The same holds for `A_AC3/BSID9`, `A_AC3/BSID10`, `A_DTS/EXPRESS` and
  `A_DTS/LOSSLESS`.
- A folder whose listing fails raises out of the loop. That ends the whole run with
  status Error, after the requests of the folders before it.
- The final status reads the flag once more after the loops. A cancellation that
  arrives after the last poll therefore still gives "Cancelled".

## Model

| member | source | states |
|---|---|---|
| Keywords.ParseKeywords | commextract.py:169 | one keyword per comma-separated piece of the field |
| Keywords.KeywordCount | commextract.py:169-171 | the number of keywords is the number of commas plus one, so the list is never empty |
| Keywords.EffectiveKeywords | commextract.py:169-173 | the keyword list a run uses is always the parsed list: the fallback to `commentary` is dead |
| Keywords.KeywordsNormal | commextract.py:169 | every parsed keyword has no comma, no upper-case letter and no whitespace at either end |
| Keywords.NormalKeywordFixed | commextract.py:169 | a keyword in that normal form strips and lower-cases to itself |
| Keywords.ParseJoinParse | commextract.py:169-175 | joining the parsed keywords with commas and parsing again gives the same list |
| Keywords.BlankFieldGivesEmptyKeyword | commextract.py:169-173 | an empty or all-whitespace field yields exactly the one empty keyword |
| Keywords.TrailingCommaGivesEmptyKeyword | commextract.py:169 | a field ending in a comma yields the empty keyword last |
| Keywords.DefaultFieldIsJoin | commextract.py:57 | the field's initial text is its six words joined by commas |
| Keywords.DefaultKeywords | commextract.py:57 | the initial field parses to `commentary, director, filmmaker, crew, discussion, chat`, in order |
| Text.LowerProperties | commextract.py:246 | lower-casing leaves no upper-case letter, is idempotent and fixes text without upper case |
| Text.StripSlice | commextract.py:169 | `strip` returns a slice of the input with only whitespace cut from each end and none left at either end |
| Text.StripIdempotent | commextract.py:169 | stripping twice is stripping once |
| Text.StripBlank | commextract.py:169 | an all-whitespace string strips to the empty string |
| Text.SplitCount | commextract.py:169 | `split` on one character yields one more piece than there are separators |
| Text.SplitPiecesFree | commextract.py:169 | no piece of `split` contains the separator |
| Text.JoinSplit | commextract.py:169 | joining the pieces of `split` with the separator gives back the input |
| Text.SplitJoin | commextract.py:169 | splitting a join of separator-free pieces gives back the pieces |
| Text.LastPieceSuffix | commextract.py:242 | `split(sep)[-1]` is a suffix of the input, preceded by the separator unless it is the whole input, and the whole input exactly when there is no separator |
| Text.LastPieceFree | commextract.py:242 | `split(sep)[-1]` holds no separator, and is the whole input when the input holds none |
| Text.ContainsEmpty | commextract.py:248 | the empty string occurs in every string; only the empty string occurs in the empty string |
| Text.DecimalRoundTrip | commextract.py:270 | reading back the decimal digits of a track id gives the id |
| Metadata.AbsentFieldsDefault | commextract.py:234-242 | absent keys read as the defaults: no tracks, empty name, language and codec ID; an absent type is not audio |
| Codec.CodecSegmentShape | commextract.py:242 | the codec segment is a slash-free suffix of the ID, and the whole ID when it has no slash |
| Codec.SlashedIdsUseLastSegment | commextract.py:242 | an ID `<family>/<last>` with a slash-free `<last>` is judged by `<last>` alone |
| Codec.ExtensionKnown | commextract.py:254-266 | every codec gets one of the seven extensions |
| Codec.ChooseExtension | commextract.py:254-266 | the `elif` chain of tests picks the extension of the first table prefix that starts the codec, `mka` when none does |
| Codec.ExtensionIsChain | commextract.py:254-266 | the first-match lookup in the prefix table is the code's chain of tests, in the code's order |
| Codec.PrefixDecides | commextract.py:254-266 | a codec starting with a table prefix gets that prefix's extension, whatever the order of the tests |
| Codec.FallbackIffNoPrefix | commextract.py:254-266 | the fallback `mka` is chosen exactly when no table prefix starts the codec |
| Codec.ShortCodecFallback | commextract.py:254-266 | a codec segment shorter than five characters gets `mka` |
| Codec.SegmentAfterSlash | commextract.py:242 | a slash in the ID bounds the segment's length to what follows it |
| Codec.PcmIdsGetFallback | commextract.py:242-266 | `A_PCM/INT/LIT`, `A_PCM/INT/BIG`, `A_PCM/FLOAT/IEEE`, `A_AAC/MPEG4/LC` and `A_MPEG/L3` get `mka` |
| Codec.SuffixedIdsGetFallback | commextract.py:242-266 | an ID whose last segment does not start with `A` gets `mka`, as `A_AC3/BSID9` and `A_DTS/LOSSLESS` do |
| Codec.PrefixOwnExtension | commextract.py:254-266 | each table prefix, taken as a whole codec, gets its own extension and not the fallback |
| Codec.PlainIdsGetTheirExtension | commextract.py:242-266 | the slash-free IDs `A_AC3`, `A_AAC`, `A_DTS`, `A_FLAC` and the prefix `A_MP3` are their own segment and keep their table extension |
| Naming.SanitizeSafe | commextract.py:292-293 | sanitising keeps the length and leaves none of the nine unsafe characters |
| Naming.SanitizeAt | commextract.py:292 | each unsafe character becomes `_` and every other character stays in place |
| Naming.SanitizeFixedIffSafe | commextract.py:292 | a name is left unchanged exactly when it holds no unsafe character |
| Naming.SanitizeIdempotent | commextract.py:292-293 | sanitising twice is sanitising once |
| Naming.SanitizeConcat | commextract.py:292 | sanitising distributes over concatenation |
| Naming.DisplayNameProperties | commextract.py:270 | a track's name is never empty: its own name if it has one, else `Commentary Track <id>`, distinct for distinct ids |
| Naming.IdTextInjective | commextract.py:270 | different track ids render as different text |
| Naming.OutputFilenameSafe | commextract.py:292-294 | with a safe extension the whole output file name is safe, whatever the movie and track names |
| Naming.OutputFilenameShape | commextract.py:294 | the file name is `<sanitised movie> - ` ... `.<ext>`, four characters longer than its parts, and already sanitised |
| Naming.SafeNamesVerbatim | commextract.py:292-294 | safe movie and track names appear verbatim in the file name |
| Selection.IsCommentary | commextract.py:245-250 | the early-exit keyword loop finds a match iff some keyword occurs in the lower-cased name |
| Selection.ExtensionSafe | commextract.py:254-266 | every extension the table can give is a safe file-name part |
| Selection.SelectedExtensionsSafe | commextract.py:233-274 | every selected record carries a safe extension |
| Selection.SelectTracks | commextract.py:233-274 | the track loop builds exactly the selection `SelectCommentary` of the report's tracks |
| Selection.SelectConcat | commextract.py:233-274 | selection distributes over concatenation of track lists |
| Selection.CommentaryIndicesShape | commextract.py:233-250 | the commentary positions increase, lie inside the track list, and are exactly the positions of audio tracks with a matching name |
| Selection.SelectionIsOrderedSubsequence | commextract.py:233-274 | the selection is the records of the audio tracks with a matching name, as an ordered subsequence of the report: none missed, none extra, order kept |
| Selection.SelectedIff | commextract.py:233-274 | a record is selected iff some audio track with a matching name produces it |
| Selection.EmptyKeywordSelectsAllAudio | commextract.py:246-250 | with the empty keyword present, a track is selected iff it is audio |
| Selection.UnnamedNeedsEmptyKeyword | commextract.py:245-270 | an unnamed track is selected only through the empty keyword; without it every record keeps the track's own name |
| Selection.NoTracksSelectsNothing | commextract.py:234 | a report without `tracks` selects nothing |
| Scan.MkvNameIff | commextract.py:187 | the name test looks only at the last four characters, ignoring letter case |
| Scan.MkvNameExamples | commextract.py:187 | `.MKV`, `.Mkv`, `.mkv` names count; `.mkv.part` does not |
| Scan.MkvFilesFilter | commextract.py:186-187 | the candidates are exactly the regular files with an `.mkv` name, and no more than the entries |
| Scan.MkvFilesConcat | commextract.py:186-187 | the filter distributes over concatenation, so listing order is kept |
| Scan.MovieDirsConcat | commextract.py:163-164 | the folder filter distributes over concatenation, so listing order is kept |
| Scan.MovieDirsFilter | commextract.py:163-164 | the movie folders are exactly the directory entries of the library |
| Driver.FileOutputsSafe | commextract.py:254-294 | every output file name a file's requests would write holds none of the unsafe characters |
| Driver.FailedFileIsSkipped | commextract.py:203-230 | a file whose metadata cannot be read contributes only its `mkvmerge -J` query to the plan, and the files around it contribute what they would without it |
| Driver.FilesPlanConcat | commextract.py:195-313 | the plan of a folder's files distributes over concatenation, so directory order is kept |
| Driver.MoviesPlanSize | commextract.py:177-313 | when every folder can be listed, the folders' plan has one item per folder, per `.mkv` file and per commentary track |
| Driver.WorkPlanSize | commextract.py:157-313 | for a library whose every listing succeeds, the work plan is as long as the poll count |
| Driver.ExtractionsConcat | commextract.py:297-313 | the extractions of concatenated work are the concatenated extractions |
| Driver.StoppedIff | commextract.py:178-285 | the recursive "some poll saw the flag cleared" agrees with its position-wise statement |
| Driver.ValidMeans | commextract.py:178-315 | a valid trace has flag observations that follow the schedule, no extraction after a poll that saw the flag cleared, and each outcome from `mkvextract` |
| Driver.PolledMeans | commextract.py:178-285 | in a valid trace each folder listing directly follows a folder poll that found the flag set, each `mkvmerge -J` query a file poll, and each extraction a track poll |
| Driver.AnsweredMeans | commextract.py:178-285 | in a valid trace each folder, file or track poll that found the flag set, unless it is last, is directly followed by a listing, a query or an extraction, respectively |
| Driver.WorkBound | commextract.py:177-313 | each poll that finds the flag set lets through at most one piece of work, so a run cancelled at observation c does at most c pieces of work |
| Driver.RequestsWithinWork | commextract.py:297-313 | every extraction request is a piece of work |
| Driver.RequestsAreExtractions | commextract.py:297-313 | the requests of a trace are the extractions among its work |
| Driver.TrackRunPerforms | commextract.py:283-313 | the track loop gives a valid stretch that does a prefix of the file's extractions, in order, all of them unless a poll finds the flag cleared; failed extractions do not stop it |
| Driver.FileRunPerforms | commextract.py:211-313 | after its query, a file does a prefix of its extractions and never raises; an unreadable report or no commentary track does no work |
| Driver.FilesRunPerforms | commextract.py:195-313 | the file loop queries the `.mkv` files in directory order, each query right after a file poll that found the flag set and followed by the file's extractions, until a poll finds the flag cleared |
| Driver.FolderRunPerforms | commextract.py:189-313 | a listed folder does a prefix of its files' plan, and none when it has no `.mkv` file |
| Driver.MoviesRunPerforms | commextract.py:177-313 | the folder loop lists the folders in order, each listing right after a folder poll that found the flag set and followed by the folder's work, until a poll finds the flag cleared or a listing fails |
| Driver.MoviesRunFailure | commextract.py:177-323 | the folder loop raises only while the flag is set, before any poll found it cleared, at a folder that cannot be listed, with the logged failure last; a loop that neither raises nor is stopped listed every folder |
| Driver.RunOrder | commextract.py:157-324 | the trace of a run is valid, ends on no loop poll, has each piece of work directly after its own poll that found the flag set and each such poll directly followed by its work, follows the schedule, has no extraction after the flag is seen cleared, and records `mkvextract`'s outcomes |
| Driver.RunWork | commextract.py:157-324 | the work of a run is a prefix of the work plan and its requests a prefix of the plan, both all of it unless cancelled; a run with no cancellation is not cancelled |
| Driver.RunBound | commextract.py:177-313 | a run cancelled at observation c does at most c pieces of work and so requests at most c extractions |
| Driver.RunFails | commextract.py:157-324 | a run ends with Error exactly when a listing it needs fails before any poll found the flag cleared, with the failure as its last event; an unlistable library gives exactly the failure |
| Driver.RunEnds | commextract.py:315-319 | a run that does not fail ends on the final poll, whose value is the status, and is Cancelled whenever an earlier poll found the flag cleared |
| Driver.RunCompletes | commextract.py:157-319 | over a library whose every listing succeeds, a run is Done exactly when the flag is still set at observation `PollCount`, so a cancellation scheduled later than that completes; a Done run made exactly `PollCount` polls and the final one |
| Driver.RunEmptyLibrary | commextract.py:163-317 | a library without folders gives the two header events and the final poll at observation 0 |
| Driver.ExtractTracks | commextract.py:283-313 | the track loop produces exactly the stretch `TrackRun` defines |
| Driver.ProcessFile | commextract.py:211-313 | handling one queried file produces exactly the stretch `FileRun` defines |
| Driver.ProcessFiles | commextract.py:195-313 | the file loop produces exactly the stretch `FilesRun` defines |
| Driver.ProcessFolder | commextract.py:185-313 | handling one listed folder produces exactly the stretch `FolderRun` defines |
| Driver.ProcessMovies | commextract.py:177-313 | the folder loop produces exactly the stretch `MoviesRun` defines, raising at the first folder it cannot list |
| Driver.Run | commextract.py:157-324 | the whole run equals `RunOf`. An unlistable library gives Error with the failure as the only event. The work is a prefix of the work plan and the requests a prefix of the plan, all of it unless Cancelled. With cancellation at observation c, at most c pieces of work. Each listing, query and extraction directly follows its own poll that found the flag set, each such poll is directly followed by its work, and no extraction follows a poll that found the flag cleared. Error exactly when a needed listing fails before the flag is seen cleared. Over a fully listable library, Done exactly when the flag is set at observation `PollCount` |

## Left out

- The Tk window, its widgets and the status-bar messages other than the final status
  are not modelled.
- Log lines: only the conditions listed under `Driver.Event` are recorded, without
  their wording. Progress lines such as "Processing movie folder" (commextract.py:183),
  "Found N MKV files" (:193), "Analyzing" (:200), the count of commentary tracks found
  (:280) and the per-track "Extracting" line (:297) have no event.
- `start_extraction` and `cancel_extraction` are not part of this model: the tool
  checks, directory checks and thread start, and the handler that clears the flag.
  The flag's history is the `cancelAt` schedule, and the `finally` block's button
  handling is UI.
- `mkvmerge -J` is not run. A file's report, or the reason it failed (non-zero exit,
  empty output, malformed JSON, any other exception), is part of its directory entry.
- `mkvextract` is not run. Its success for a request is the parameter `extract`. An
  exception while starting it (commextract.py:312-313) counts as a failed outcome,
  which the loop treats in the same way.
- JSON values of unexpected types are not modelled: every field is either absent or
  of the expected type. This includes a `tracks` that is not a list, a non-string
  name, and a negative or non-integer id.
- Driver.FailedFileIsSkipped: failures are local only for the failures the per-file
  `try` catches. A report that is not an object, a track whose `properties` is
  `null`, or a `track_name` that is `null` raises at commextract.py:234-246. That
  code sits outside the per-file `try`, so the exception ends the whole run with
  Error. The model does not capture this.
- `os.listdir`, `os.path.isdir` and `os.path.isfile` are not modelled beyond their
  results. Listings are sequences in the order given, and each entry carries its kind.
  Paths are names: `os.path.join` with the input and output directories is left out.
- The listing of the library itself (commextract.py:163-164) is not an event: the code
  does not poll before it, and its failure is the `ScanFailed` that ends the run.
- Two tracks that map to the same output file name overwrite each other on disk. That
  is file-system behaviour and is not modelled.
- Text.Lower: lower-cases ASCII letters only, not the full Unicode case mapping of `str.lower`.
- Text.Strip: strips ASCII whitespace only (tab through carriage return, U+001C to U+001F, space), not every Unicode space.
