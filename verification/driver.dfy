/**
 * The extraction run (commextract.py:157-324): movie folders, then their `.mkv`
 * files, then each file's commentary tracks, with the `running` flag polled before
 * each folder (:178), each file (:196) and each track (:284) and read once more
 * to choose the final status (:315).
 *
 * Nothing here runs a tool. A file's metadata report is part of its directory
 * entry; whether `mkvextract` succeeds is the parameter `extract`; and the flag
 * is the parameter `cancelAt`: observation number k (counting from 0, in the
 * order the run makes them) sees `running` true iff `cancelAt` is None or
 * k < cancelAt. The flag is raised once before the run (:144) and only cleared
 * afterwards (:153, :327), so every schedule it can follow is of this form.
 *
 * What the run does is recorded as a trace of events: the flag observations,
 * the work (folder listings, `mkvmerge -J` queries, extraction requests with
 * their outcome), and the conditions the code logs. Each loop is a method proved
 * equal to a recursive definition of the stretch of trace it produces; what the
 * run promises is proved about those definitions.
 */
module Driver {
  import opened Optional
  import opened Metadata
  import opened Naming
  import opened Selection
  import opened Scan
  import opened Keywords

  /** Where the flag is read. */
  datatype Checkpoint = BeforeMovie | BeforeFile | BeforeTrack | AtEnd

  /** One `mkvextract tracks <file> <id>:<output>` invocation; the file and the output
      are given by their names inside the input folder and the output directory. */
  datatype Request = Request(movie: string, file: string, trackId: Option<nat>, output: string)

  /** One piece of work the run asks of the outside world: listing a movie folder
      (:186-187), querying a file with `mkvmerge -J` (:205-209), or extracting a
      track with `mkvextract` (:297-310). */
  datatype Work =
    | ListFolder(movie: string)
    | QueryFile(movie: string, file: string)
    | ExtractTrack(request: Request)

  datatype Event =
    | FoldersFound(count: nat)                                       // :166
    | KeywordsUsed(keywords: seq<string>)                            // :175
    | Observed(point: Checkpoint, running: bool)                     // :178, :196, :284, :315
    | ScanFolder(movie: string)                                      // :186-187
    | NoMkvFiles(movie: string)                                      // :190
    | QueryTracks(movie: string, file: string)                       // :205-209
    | FileFailed(movie: string, file: string, failure: ProbeFailure) // :213, :219, :224, :229
    | NoCommentary(movie: string, file: string)                      // :277
    | Extracted(request: Request, ok: bool)                          // :297-313
    | ScanFailed                                                     // :323

  /** The status bar's final text: "Done", "Cancelled" or "Error". */
  datatype Status = Done | Cancelled | Error

  /** The value of the flag at observation number k. */
  predicate Running(cancelAt: Option<nat>, k: nat) {
    cancelAt.None? || k < cancelAt.value
  }

  lemma PrefixExtend<T>(p: seq<T>, a: seq<T>, b: seq<T>)
    requires a <= b
    ensures p + a <= p + b
  {
    assert (p + b)[..|p + a|] == p + b[..|a|];
  }

  lemma PrefixAppend<T>(a: seq<T>, b: seq<T>, c: seq<T>)
    requires a <= b
    ensures a <= b + c
  {
    assert (b + c)[..|a|] == b[..|a|];
  }

  // ---------------------------------------------------------------------------
  // The plan: the work a run does, in order, when it is never cancelled.

  /** The request for one selected track (commextract.py:287-303). */
  function RequestFor(movie: string, file: string, t: CommentaryTrack): Request {
    Request(movie, file, t.id, OutputFilename(movie, t.name, t.extension))
  }

  /** One extraction per selected track, in order. */
  function TrackWork(movie: string, file: string, tracks: seq<CommentaryTrack>): seq<Work> {
    if tracks == [] then []
    else [ExtractTrack(RequestFor(movie, file, tracks[0]))] + TrackWork(movie, file, tracks[1..])
  }

  /** The commentary tracks of a file: none when its metadata could not be read. */
  function Selected(f: FileEntry, keywords: seq<string>): seq<CommentaryTrack> {
    match f.probe
    case Parsed(info) => SelectCommentary(TracksOf(info), keywords)
    case ProbeFailed(_) => []
  }

  /** A file's work: its query, then one extraction per commentary track. */
  function FileWork(movie: string, f: FileEntry, keywords: seq<string>): seq<Work> {
    [QueryFile(movie, f.name)] + TrackWork(movie, f.name, Selected(f, keywords))
  }

  /** The work for a folder's `.mkv` files, in directory order. */
  function FilesPlan(movie: string, files: seq<FileEntry>, keywords: seq<string>): seq<Work> {
    if files == [] then []
    else FileWork(movie, files[0], keywords) + FilesPlan(movie, files[1..], keywords)
  }

  /** A folder's work: its listing, then its files when the listing succeeds. */
  function MoviePlan(m: MovieEntry, keywords: seq<string>): seq<Work> {
    [ListFolder(m.name)] +
      match m.contents
      case Listed(entries) => FilesPlan(m.name, MkvFiles(entries), keywords)
      case Unreadable => []
  }

  /** Folder by folder, up to the first folder that cannot be listed, whose listing
      ends the run. */
  function MoviesPlan(movies: seq<MovieEntry>, keywords: seq<string>): seq<Work> {
    if movies == [] then []
    else if movies[0].contents.Unreadable? then MoviePlan(movies[0], keywords)
    else MoviePlan(movies[0], keywords) + MoviesPlan(movies[1..], keywords)
  }

  function WorkPlan(root: Listing<MovieEntry>, keywordField: string): seq<Work> {
    match root
    case Listed(entries) => MoviesPlan(MovieDirs(entries), EffectiveKeywords(keywordField))
    case Unreadable => []
  }

  /** The extraction requests among a sequence of work, in order. */
  function Extractions(work: seq<Work>): seq<Request> {
    if work == [] then []
    else (if work[0].ExtractTrack? then [work[0].request] else []) + Extractions(work[1..])
  }

  /** Every extraction an uncancelled run requests, in order. */
  function Plan(root: Listing<MovieEntry>, keywordField: string): seq<Request> {
    Extractions(WorkPlan(root, keywordField))
  }

  predicate Readable(movies: seq<MovieEntry>) {
    forall i :: 0 <= i < |movies| ==> movies[i].contents.Listed?
  }

  /** Some listing the run would need fails. */
  predicate HitsUnreadable(root: Listing<MovieEntry>) {
    root.Unreadable? || !Readable(MovieDirs(root.entries))
  }

  // The number of polls before the final one in a run that is never cancelled,
  // counted from the listings: one per folder, one per `.mkv` file and one per
  // commentary track.

  function FilesCount(files: seq<FileEntry>, keywords: seq<string>): nat {
    if files == [] then 0
    else 1 + |Selected(files[0], keywords)| + FilesCount(files[1..], keywords)
  }

  function FoldersCount(movies: seq<MovieEntry>, keywords: seq<string>): nat {
    if movies == [] then 0
    else
      var here := match movies[0].contents
        case Listed(entries) => FilesCount(MkvFiles(entries), keywords)
        case Unreadable => 0;
      1 + here + FoldersCount(movies[1..], keywords)
  }

  function PollCount(root: Listing<MovieEntry>, keywordField: string): nat {
    match root
    case Listed(entries) => FoldersCount(MovieDirs(entries), EffectiveKeywords(keywordField))
    case Unreadable => 0
  }

  /** Every output name a file's requests would write is safe to create. */
  lemma FileOutputsSafe(movie: string, f: FileEntry, keywords: seq<string>)
    ensures forall k :: 0 <= k < |Selected(f, keywords)| ==>
              IsSafeName(RequestFor(movie, f.name, Selected(f, keywords)[k]).output)
  {
    if f.probe.Parsed? {
      var sel := Selected(f, keywords);
      SelectedExtensionsSafe(TracksOf(f.probe.info), keywords);
      forall k | 0 <= k < |sel| ensures IsSafeName(RequestFor(movie, f.name, sel[k]).output) {
        OutputFilenameSafe(movie, sel[k].name, sel[k].extension);
      }
    }
  }

  lemma {:induction false} FilesPlanConcat(movie: string, a: seq<FileEntry>, b: seq<FileEntry>, keywords: seq<string>)
    ensures FilesPlan(movie, a + b, keywords) == FilesPlan(movie, a, keywords) + FilesPlan(movie, b, keywords)
  {
    if a == [] {
      assert a + b == b;
    } else {
      assert (a + b)[0] == a[0];
      assert (a + b)[1..] == a[1..] + b;
      FilesPlanConcat(movie, a[1..], b, keywords);
    }
  }

  /** Failures are local: a file whose metadata cannot be read contributes only its
      query, and the files around it contribute what they would without it. */
  lemma FailedFileIsSkipped(movie: string, a: seq<FileEntry>, f: FileEntry, b: seq<FileEntry>, keywords: seq<string>)
    requires f.probe.ProbeFailed?
    ensures FilesPlan(movie, a + [f] + b, keywords)
         == FilesPlan(movie, a, keywords) + [QueryFile(movie, f.name)] + FilesPlan(movie, b, keywords)
  {
    assert a + [f] + b == a + ([f] + b);
    FilesPlanConcat(movie, a, [f] + b, keywords);
    assert ([f] + b)[1..] == b;
    assert FileWork(movie, f, keywords) == [QueryFile(movie, f.name)];
  }

  lemma {:induction false} TrackWorkSize(movie: string, file: string, tracks: seq<CommentaryTrack>)
    ensures |TrackWork(movie, file, tracks)| == |tracks|
  {
    if tracks != [] {
      TrackWorkSize(movie, file, tracks[1..]);
    }
  }

  lemma {:induction false} FilesPlanSize(movie: string, files: seq<FileEntry>, keywords: seq<string>)
    ensures |FilesPlan(movie, files, keywords)| == FilesCount(files, keywords)
  {
    if files != [] {
      FilesPlanSize(movie, files[1..], keywords);
      TrackWorkSize(movie, files[0].name, Selected(files[0], keywords));
    }
  }

  lemma ReadableTail(movies: seq<MovieEntry>)
    requires movies != []
    ensures Readable(movies) <==> movies[0].contents.Listed? && Readable(movies[1..])
  {
    if movies[0].contents.Listed? && Readable(movies[1..]) {
      forall i | 0 < i < |movies| ensures movies[i].contents.Listed? {
        assert movies[i] == movies[1..][i - 1];
      }
    }
  }

  lemma {:induction false} MoviesPlanSize(movies: seq<MovieEntry>, keywords: seq<string>)
    requires Readable(movies)
    ensures |MoviesPlan(movies, keywords)| == FoldersCount(movies, keywords)
  {
    if movies != [] {
      var m := movies[0];
      ReadableTail(movies);
      MoviesPlanSize(movies[1..], keywords);
      FilesPlanSize(m.name, MkvFiles(m.contents.entries), keywords);
    }
  }

  /** The closed-form count is the length of the plan of a library whose every
      listing succeeds. */
  lemma WorkPlanSize(root: Listing<MovieEntry>, keywordField: string)
    requires !HitsUnreadable(root)
    ensures |WorkPlan(root, keywordField)| == PollCount(root, keywordField)
  {
    MoviesPlanSize(MovieDirs(root.entries), EffectiveKeywords(keywordField));
  }

  lemma {:induction false} ExtractionsConcat(a: seq<Work>, b: seq<Work>)
    ensures Extractions(a + b) == Extractions(a) + Extractions(b)
  {
    if a == [] {
      assert a + b == b;
    } else {
      assert (a + b)[0] == a[0];
      assert (a + b)[1..] == a[1..] + b;
      ExtractionsConcat(a[1..], b);
    }
  }

  lemma ExtractionsPrefix(a: seq<Work>, b: seq<Work>)
    requires a <= b
    ensures Extractions(a) <= Extractions(b)
  {
    assert b == a + b[|a|..];
    ExtractionsConcat(a, b[|a|..]);
  }

  // ---------------------------------------------------------------------------
  // Traces.

  /** The extraction requests of a trace, in order. */
  function Requests(trace: seq<Event>): seq<Request>
  {
    if trace == [] then []
    else
      var e := trace[|trace| - 1];
      Requests(trace[..|trace| - 1]) + (if e.Extracted? then [e.request] else [])
  }

  /** A listing, a query or an extraction. */
  predicate IsWork(e: Event) {
    e.ScanFolder? || e.QueryTracks? || e.Extracted?
  }

  function JobOf(e: Event): seq<Work> {
    if e.ScanFolder? then [ListFolder(e.movie)]
    else if e.QueryTracks? then [QueryFile(e.movie, e.file)]
    else if e.Extracted? then [ExtractTrack(e.request)]
    else []
  }

  /** The work of a trace, in order. */
  function Jobs(trace: seq<Event>): seq<Work>
  {
    if trace == [] then []
    else Jobs(trace[..|trace| - 1]) + JobOf(trace[|trace| - 1])
  }

  /** The flag values a trace observed, in order. */
  function Flags(trace: seq<Event>): seq<bool>
  {
    if trace == [] then []
    else
      var e := trace[|trace| - 1];
      Flags(trace[..|trace| - 1]) + (if e.Observed? then [e.running] else [])
  }

  predicate IsStop(e: Event) {
    e.Observed? && !e.running
  }

  /** Some observation in the trace found the flag cleared. */
  predicate Stopped(trace: seq<Event>) {
    trace != [] && (Stopped(trace[..|trace| - 1]) || IsStop(trace[|trace| - 1]))
  }

  /** The last event is a poll at `point` that found the flag set. */
  predicate PolledSet(init: seq<Event>, point: Checkpoint) {
    init != [] && init[|init| - 1] == Observed(point, true)
  }

  /** The trace ends on a loop's poll that found the flag set, whose work is due next. */
  predicate Pending(trace: seq<Event>) {
    trace != [] && trace[|trace| - 1].Observed? && trace[|trace| - 1].running && trace[|trace| - 1].point != AtEnd
  }

  /** Work comes directly after a poll of its own loop that found the flag set, and
      such a poll is directly followed by that work. */
  predicate Gated(init: seq<Event>, e: Event) {
    && (e.ScanFolder? <==> PolledSet(init, BeforeMovie))
    && (e.QueryTracks? <==> PolledSet(init, BeforeFile))
    && (e.Extracted? <==> PolledSet(init, BeforeTrack))
  }

  /** Event by event: an observation sees the flag as it is at its number (the
      first one being number `first`), work and the polls that let it through come
      in pairs, an extraction comes only while no observation has found the flag
      cleared, and its outcome is what `mkvextract` reports for its request. */
  predicate Valid(trace: seq<Event>, cancelAt: Option<nat>, first: nat, extract: Request -> bool) {
    trace == [] ||
      var init, e := trace[..|trace| - 1], trace[|trace| - 1];
      && Valid(init, cancelAt, first, extract)
      && (e.Observed? ==> e.running == Running(cancelAt, first + |Flags(init)|))
      && Gated(init, e)
      && (e.Extracted? ==> !Stopped(init) && e.ok == extract(e.request))
  }

  /** A stretch of a run that starts at observation number `first` and leaves the
      next observation number at `next`. Until a poll finds the flag cleared, every
      poll lets one piece of work through; once one does, the flag stays cleared
      from the number of pieces of work on. */
  predicate Segment(trace: seq<Event>, cancelAt: Option<nat>, first: nat, next: nat, extract: Request -> bool) {
    && next == first + |Flags(trace)|
    && Valid(trace, cancelAt, first, extract)
    && !Pending(trace)
    && (!Running(cancelAt, first) ==> Jobs(trace) == [])
    && (Stopped(trace) ==> !Running(cancelAt, next) && !Running(cancelAt, first + |Jobs(trace)|))
    && (!Stopped(trace) ==> next == first + |Jobs(trace)|)
  }

  // What a valid trace means, position by position.

  /** Each piece of work directly follows a poll of its loop that found the flag set. */
  predicate PolledBeforeWork(trace: seq<Event>) {
    && (forall j :: 0 <= j < |trace| && trace[j].ScanFolder? ==> 0 < j && trace[j - 1] == Observed(BeforeMovie, true))
    && (forall j :: 0 <= j < |trace| && trace[j].QueryTracks? ==> 0 < j && trace[j - 1] == Observed(BeforeFile, true))
    && (forall j :: 0 <= j < |trace| && trace[j].Extracted? ==> 0 < j && trace[j - 1] == Observed(BeforeTrack, true))
  }

  /** Each poll of a loop that found the flag set, unless it is last, is directly
      followed by the work it lets through. */
  predicate PollsAnswered(trace: seq<Event>) {
    && (forall j :: 0 <= j < |trace| - 1 && trace[j] == Observed(BeforeMovie, true) ==> trace[j + 1].ScanFolder?)
    && (forall j :: 0 <= j < |trace| - 1 && trace[j] == Observed(BeforeFile, true) ==> trace[j + 1].QueryTracks?)
    && (forall j :: 0 <= j < |trace| - 1 && trace[j] == Observed(BeforeTrack, true) ==> trace[j + 1].Extracted?)
  }

  predicate HasStop(trace: seq<Event>) {
    exists i :: 0 <= i < |trace| && IsStop(trace[i])
  }

  /** No extraction is requested after an observation that found the flag cleared. */
  predicate NoExtractAfterStop(trace: seq<Event>) {
    forall i, j :: 0 <= i < j < |trace| && IsStop(trace[i]) ==> !trace[j].Extracted?
  }

  /** The observations follow the flag, starting at observation number `first`. */
  predicate FlagsFollow(trace: seq<Event>, cancelAt: Option<nat>, first: nat) {
    forall k :: 0 <= k < |Flags(trace)| ==> Flags(trace)[k] == Running(cancelAt, first + k)
  }

  /** Each recorded outcome is what `mkvextract` reported for that request. */
  predicate OutcomesFrom(trace: seq<Event>, extract: Request -> bool) {
    forall i :: 0 <= i < |trace| && trace[i].Extracted? ==> trace[i].ok == extract(trace[i].request)
  }

  lemma {:induction false} StoppedIff(trace: seq<Event>)
    ensures Stopped(trace) <==> HasStop(trace)
  {
    if trace != [] {
      var n := |trace| - 1;
      var init := trace[..n];
      StoppedIff(init);
      if HasStop(init) {
        var i :| 0 <= i < n && IsStop(init[i]);
        assert IsStop(trace[i]);
      }
      if HasStop(trace) {
        var i :| 0 <= i < |trace| && IsStop(trace[i]);
        if i < n {
          assert IsStop(init[i]);
        }
      }
    }
  }

  lemma {:induction false} ValidMeans(trace: seq<Event>, cancelAt: Option<nat>, first: nat, extract: Request -> bool)
    requires Valid(trace, cancelAt, first, extract)
    ensures FlagsFollow(trace, cancelAt, first)
    ensures NoExtractAfterStop(trace)
    ensures OutcomesFrom(trace, extract)
  {
    if trace != [] {
      var n := |trace| - 1;
      var init, e := trace[..n], trace[n];
      ValidMeans(init, cancelAt, first, extract);
      StoppedIff(init);
      assert Flags(trace) == Flags(init) + (if e.Observed? then [e.running] else []);
      forall i, j | 0 <= i < j < |trace| && IsStop(trace[i]) ensures !trace[j].Extracted? {
        assert IsStop(init[i]);
        if j < n {
          assert init[j] == trace[j];
        }
      }
      forall i | 0 <= i < |trace| && trace[i].Extracted? ensures trace[i].ok == extract(trace[i].request) {
        if i < n {
          assert init[i] == trace[i];
        }
      }
    }
  }

  lemma {:induction false} PolledMeans(trace: seq<Event>, cancelAt: Option<nat>, first: nat, extract: Request -> bool)
    requires Valid(trace, cancelAt, first, extract)
    ensures PolledBeforeWork(trace)
  {
    if trace != [] {
      var n := |trace| - 1;
      var init := trace[..n];
      PolledMeans(init, cancelAt, first, extract);
      forall j | 0 <= j < n ensures trace[j] == init[j] {
      }
    }
  }

  lemma {:induction false} AnsweredMeans(trace: seq<Event>, cancelAt: Option<nat>, first: nat, extract: Request -> bool)
    requires Valid(trace, cancelAt, first, extract)
    ensures PollsAnswered(trace)
  {
    if trace != [] {
      var n := |trace| - 1;
      var init := trace[..n];
      AnsweredMeans(init, cancelAt, first, extract);
      forall j | 0 <= j < n ensures trace[j] == init[j] {
      }
    }
  }

  /** Every poll that finds the flag set lets through at most one piece of work, and
      a poll finds it set only while its number is below `cancelAt`: a run cancelled
      at observation c does at most c pieces of work. */
  lemma {:induction false} WorkBound(trace: seq<Event>, cancelAt: Option<nat>, first: nat, extract: Request -> bool)
    requires Valid(trace, cancelAt, first, extract)
    ensures |Jobs(trace)| + (if Pending(trace) then 1 else 0) <= |Flags(trace)|
    ensures cancelAt.Some? && |Jobs(trace)| > 0 ==> first + |Jobs(trace)| <= cancelAt.value
  {
    if trace != [] {
      var n := |trace| - 1;
      var init, e := trace[..n], trace[n];
      WorkBound(init, cancelAt, first, extract);
      if IsWork(e) {
        var m := |init| - 1;
        var init' := init[..m];
        assert Valid(init, cancelAt, first, extract);
        assert init[m].running == Running(cancelAt, first + |Flags(init')|);
        assert |Flags(init)| == |Flags(init')| + 1;
      }
    }
  }

  /** Every extraction is a piece of work. */
  lemma {:induction false} RequestsWithinWork(trace: seq<Event>)
    ensures |Requests(trace)| <= |Jobs(trace)|
  {
    if trace != [] {
      RequestsWithinWork(trace[..|trace| - 1]);
    }
  }

  /** The requests of a trace are the extractions among its work. */
  lemma {:induction false} RequestsAreExtractions(trace: seq<Event>)
    ensures Requests(trace) == Extractions(Jobs(trace))
  {
    if trace != [] {
      var init, e := trace[..|trace| - 1], trace[|trace| - 1];
      RequestsAreExtractions(init);
      ExtractionsConcat(Jobs(init), JobOf(e));
      assert JobOf(e) == [] || Extractions(JobOf(e)) == Extractions(JobOf(e)[..1]) + Extractions(JobOf(e)[1..]);
    }
  }

  // Composing stretches.

  lemma {:induction false} JobsConcat(a: seq<Event>, b: seq<Event>)
    ensures Jobs(a + b) == Jobs(a) + Jobs(b)
    decreases |b|
  {
    if b == [] {
      assert a + b == a;
    } else {
      var b' := b[..|b| - 1];
      assert (a + b)[..|a + b| - 1] == a + b';
      assert (a + b)[|a + b| - 1] == b[|b| - 1];
      JobsConcat(a, b');
    }
  }

  lemma {:induction false} FlagsConcat(a: seq<Event>, b: seq<Event>)
    ensures Flags(a + b) == Flags(a) + Flags(b)
    decreases |b|
  {
    if b == [] {
      assert a + b == a;
    } else {
      var b' := b[..|b| - 1];
      assert (a + b)[..|a + b| - 1] == a + b';
      assert (a + b)[|a + b| - 1] == b[|b| - 1];
      FlagsConcat(a, b');
    }
  }

  lemma {:induction false} StoppedConcat(a: seq<Event>, b: seq<Event>)
    ensures Stopped(a + b) <==> Stopped(a) || Stopped(b)
    decreases |b|
  {
    if b == [] {
      assert a + b == a;
    } else {
      var b' := b[..|b| - 1];
      assert (a + b)[..|a + b| - 1] == a + b';
      assert (a + b)[|a + b| - 1] == b[|b| - 1];
      StoppedConcat(a, b');
    }
  }

  /** One more event on a valid trace. */
  lemma ValidSnoc(x: seq<Event>, e: Event, cancelAt: Option<nat>, p0: nat, extract: Request -> bool)
    requires Valid(x, cancelAt, p0, extract)
    requires e.Observed? ==> e.running == Running(cancelAt, p0 + |Flags(x)|)
    requires Gated(x, e)
    requires e.Extracted? ==> !Stopped(x) && e.ok == extract(e.request)
    ensures Valid(x + [e], cancelAt, p0, extract)
  {
    assert (x + [e])[..|x|] == x;
  }

  /** The last event of the second stretch, once the rest of it is in place. */
  lemma ValidConcatLast(a: seq<Event>, b': seq<Event>, e: Event, cancelAt: Option<nat>, p0: nat, extract: Request -> bool)
    requires Valid(a + b', cancelAt, p0, extract)
    requires Valid(b' + [e], cancelAt, p0 + |Flags(a)|, extract)
    requires !Pending(a)
    requires Stopped(a) ==> Jobs(b' + [e]) == []
    ensures Valid(a + b' + [e], cancelAt, p0, extract)
  {
    var b := b' + [e];
    assert b[..|b| - 1] == b' && b[|b| - 1] == e;
    assert e.Observed? ==> e.running == Running(cancelAt, p0 + |Flags(a + b')|) by {
      FlagsConcat(a, b');
    }
    assert Gated(a + b', e) by {
      if b' == [] {
        assert a + b' == a;
      } else {
        assert (a + b')[|a + b'| - 1] == b'[|b'| - 1];
      }
    }
    assert e.Extracted? ==> !Stopped(a + b') by {
      StoppedConcat(a, b');
      assert Jobs(b) == Jobs(b') + JobOf(e);
    }
    ValidSnoc(a + b', e, cancelAt, p0, extract);
  }

  lemma {:induction false} ValidConcat(a: seq<Event>, b: seq<Event>, cancelAt: Option<nat>, p0: nat, extract: Request -> bool)
    requires Valid(a, cancelAt, p0, extract)
    requires Valid(b, cancelAt, p0 + |Flags(a)|, extract)
    requires !Pending(a)
    requires Stopped(a) ==> Jobs(b) == []
    ensures Valid(a + b, cancelAt, p0, extract)
    decreases |b|
  {
    if b == [] {
      assert a + b == a;
    } else {
      var n := |b| - 1;
      var b', e := b[..n], b[n];
      assert b' + [e] == b;
      assert Stopped(a) ==> Jobs(b') == [] by {
        assert Jobs(b) == Jobs(b') + JobOf(e);
      }
      ValidConcat(a, b', cancelAt, p0, extract);
      ValidConcatLast(a, b', e, cancelAt, p0, extract);
      assert a + b' + [e] == a + b;
    }
  }

  /** Two consecutive stretches make one. */
  lemma SegmentConcat(a: seq<Event>, b: seq<Event>, cancelAt: Option<nat>, p0: nat, p1: nat, p2: nat, extract: Request -> bool)
    requires Segment(a, cancelAt, p0, p1, extract)
    requires Segment(b, cancelAt, p1, p2, extract)
    ensures Segment(a + b, cancelAt, p0, p2, extract)
    ensures Jobs(a + b) == Jobs(a) + Jobs(b)
    ensures Stopped(a + b) <==> Stopped(a) || Stopped(b)
  {
    FlagsConcat(a, b);
    JobsConcat(a, b);
    StoppedConcat(a, b);
    ValidConcat(a, b, cancelAt, p0, extract);
    if b == [] {
      assert a + b == a;
    } else {
      assert (a + b)[|a + b| - 1] == b[|b| - 1];
    }
  }

  /** An event that neither observes the flag nor does any work. */
  lemma QuietSegment(e: Event, cancelAt: Option<nat>, p: nat, extract: Request -> bool)
    requires !e.Observed? && !IsWork(e)
    ensures Segment([e], cancelAt, p, p, extract)
    ensures Jobs([e]) == [] && !Stopped([e])
  {
    assert [e][..0] == [];
    assert !Stopped([]);
    assert Gated([], e);
  }

  /** An observation that finds the flag cleared. */
  lemma StopSegment(point: Checkpoint, cancelAt: Option<nat>, p: nat, extract: Request -> bool)
    requires !Running(cancelAt, p)
    ensures Segment([Observed(point, false)], cancelAt, p, p + 1, extract)
    ensures Jobs([Observed(point, false)]) == [] && Stopped([Observed(point, false)])
  {
    var t := [Observed(point, false)];
    assert t[..0] == [];
    assert Gated([], t[0]);
    assert !Stopped([]);
    assert Stopped(t);
  }

  /** The work one poll of a loop lets through. */
  predicate WorkFor(point: Checkpoint, w: Event, extract: Request -> bool) {
    || (point == BeforeMovie && w.ScanFolder?)
    || (point == BeforeFile && w.QueryTracks?)
    || (point == BeforeTrack && w.Extracted? && w.ok == extract(w.request))
  }

  /** An observation that finds the flag set, followed by the work it lets through. */
  lemma WorkSegment(point: Checkpoint, w: Event, cancelAt: Option<nat>, p: nat, extract: Request -> bool)
    requires Running(cancelAt, p) && WorkFor(point, w, extract)
    ensures Segment([Observed(point, true), w], cancelAt, p, p + 1, extract)
    ensures Jobs([Observed(point, true), w]) == JobOf(w) && |JobOf(w)| == 1
    ensures !Stopped([Observed(point, true), w])
  {
    var t := [Observed(point, true), w];
    var t1 := [Observed(point, true)];
    assert t[..1] == t1;
    assert t1[..0] == [];
    assert Gated([], t1[0]);
    assert Valid([], cancelAt, p, extract) && Flags([]) == [];
    assert Valid(t1, cancelAt, p, extract);
    assert Flags(t1) == [true];
    assert Flags(t) == [true];
    assert PolledSet(t1, point);
    assert !Stopped(t1);
    assert Jobs(t1) == [];
  }

  /** The two header lines a run logs before its first poll. */
  lemma HeaderSegment(count: nat, keywords: seq<string>, cancelAt: Option<nat>, extract: Request -> bool)
    ensures Segment([FoldersFound(count), KeywordsUsed(keywords)], cancelAt, 0, 0, extract)
    ensures Jobs([FoldersFound(count), KeywordsUsed(keywords)]) == []
    ensures !Stopped([FoldersFound(count), KeywordsUsed(keywords)])
  {
    QuietSegment(FoldersFound(count), cancelAt, 0, extract);
    QuietSegment(KeywordsUsed(keywords), cancelAt, 0, extract);
    SegmentConcat([FoldersFound(count)], [KeywordsUsed(keywords)], cancelAt, 0, 0, 0, extract);
    assert [FoldersFound(count)] + [KeywordsUsed(keywords)] == [FoldersFound(count), KeywordsUsed(keywords)];
  }

  /** The poll after the folder loop, whose value decides the final status. */
  lemma FinalPoll(events: seq<Event>, cancelAt: Option<nat>, next: nat, extract: Request -> bool)
    requires Segment(events, cancelAt, 0, next, extract)
    ensures Valid(events + [Observed(AtEnd, Running(cancelAt, next))], cancelAt, 0, extract)
    ensures !Pending(events + [Observed(AtEnd, Running(cancelAt, next))])
    ensures Jobs(events + [Observed(AtEnd, Running(cancelAt, next))]) == Jobs(events)
    ensures (events + [Observed(AtEnd, Running(cancelAt, next))])[..|events|] == events
    ensures |Flags(events + [Observed(AtEnd, Running(cancelAt, next))])| == next + 1
  {
    var e := Observed(AtEnd, Running(cancelAt, next));
    var t := [e];
    assert t[..0] == [];
    assert Gated([], e);
    assert Valid([], cancelAt, next, extract) && Flags([]) == [];
    assert Valid(t, cancelAt, next, extract);
    assert Jobs(t) == [];
    assert Flags(t) == [Running(cancelAt, next)];
    ValidSnoc(events, e, cancelAt, 0, extract);
    JobsConcat(events, t);
    FlagsConcat(events, t);
  }

  // ---------------------------------------------------------------------------
  // The stretches the loops produce.

  /** The events of a stretch, the number of the next observation after it, and
      whether it ended by raising (only a folder listing that fails does). */
  datatype Stretch = Stretch(events: seq<Event>, next: nat, failed: bool)

  /** A stretch preceded by some events. */
  function Then(pre: seq<Event>, s: Stretch): Stretch {
    Stretch(pre + s.events, s.next, s.failed)
  }

  lemma ThenAssoc(a: seq<Event>, b: seq<Event>, s: Stretch)
    ensures Then(a, Then(b, s)) == Then(a + b, s)
  {
    assert a + (b + s.events) == a + b + s.events;
  }

  /** The track loop (commextract.py:283-313), from observation number k. */
  function TrackRun(movie: string, file: string, tracks: seq<CommentaryTrack>,
                    cancelAt: Option<nat>, k: nat, extract: Request -> bool): Stretch
    decreases |tracks|
  {
    if tracks == [] then Stretch([], k, false)
    else if !Running(cancelAt, k) then Stretch([Observed(BeforeTrack, false)], k + 1, false)
    else
      var request := RequestFor(movie, file, tracks[0]);
      Then([Observed(BeforeTrack, true), Extracted(request, extract(request))],
           TrackRun(movie, file, tracks[1..], cancelAt, k + 1, extract))
  }

  /** One `.mkv` file after its query (commextract.py:211-313). */
  function FileRun(movie: string, f: FileEntry, keywords: seq<string>,
                   cancelAt: Option<nat>, k: nat, extract: Request -> bool): Stretch
  {
    match f.probe
    case ProbeFailed(failure) => Stretch([FileFailed(movie, f.name, failure)], k, false)
    case Parsed(info) =>
      var tracks := SelectCommentary(TracksOf(info), keywords);
      if tracks == [] then Stretch([NoCommentary(movie, f.name)], k, false)
      else TrackRun(movie, f.name, tracks, cancelAt, k, extract)
  }

  /** The file loop (commextract.py:195-313), from observation number k. */
  function FilesRun(movie: string, files: seq<FileEntry>, keywords: seq<string>,
                    cancelAt: Option<nat>, k: nat, extract: Request -> bool): Stretch
    decreases |files|
  {
    if files == [] then Stretch([], k, false)
    else if !Running(cancelAt, k) then Stretch([Observed(BeforeFile, false)], k + 1, false)
    else
      var here := FileRun(movie, files[0], keywords, cancelAt, k + 1, extract);
      Then([Observed(BeforeFile, true), QueryTracks(movie, files[0].name)] + here.events,
           FilesRun(movie, files[1..], keywords, cancelAt, here.next, extract))
  }

  /** A movie folder whose listing succeeded (commextract.py:189-313). */
  function FolderRun(movie: string, entries: seq<FileEntry>, keywords: seq<string>,
                     cancelAt: Option<nat>, k: nat, extract: Request -> bool): Stretch
  {
    var files := MkvFiles(entries);
    if files == [] then Stretch([NoMkvFiles(movie)], k, false)
    else FilesRun(movie, files, keywords, cancelAt, k, extract)
  }

  /** The folder loop (commextract.py:177-313), from observation number k; a folder
      that cannot be listed ends it by raising. */
  function MoviesRun(dirs: seq<MovieEntry>, keywords: seq<string>,
                     cancelAt: Option<nat>, k: nat, extract: Request -> bool): Stretch
    decreases |dirs|
  {
    if dirs == [] then Stretch([], k, false)
    else if !Running(cancelAt, k) then Stretch([Observed(BeforeMovie, false)], k + 1, false)
    else
      match dirs[0].contents
      case Unreadable => Stretch([Observed(BeforeMovie, true), ScanFolder(dirs[0].name), ScanFailed], k + 1, true)
      case Listed(entries) =>
        var here := FolderRun(dirs[0].name, entries, keywords, cancelAt, k + 1, extract);
        Then([Observed(BeforeMovie, true), ScanFolder(dirs[0].name)] + here.events,
             MoviesRun(dirs[1..], keywords, cancelAt, here.next, extract))
  }

  /** The trace of a whole run and its final status. */
  datatype Outcome = Outcome(trace: seq<Event>, status: Status)

  /** After the folder loop: a loop that raised ends the run with an error;
      otherwise the flag, read once more, decides the status (commextract.py:315-324). */
  function Finish(s: Stretch, cancelAt: Option<nat>): Outcome {
    if s.failed then Outcome(s.events, Error)
    else
      var running := Running(cancelAt, s.next);
      Outcome(s.events + [Observed(AtEnd, running)], if running then Done else Cancelled)
  }

  /** The whole run (commextract.py:157-324). */
  function RunOf(root: Listing<MovieEntry>, keywordField: string, cancelAt: Option<nat>, extract: Request -> bool): Outcome {
    match root
    case Unreadable => Outcome([ScanFailed], Error)
    case Listed(entries) =>
      var dirs := MovieDirs(entries);
      var keywords := EffectiveKeywords(keywordField);
      Finish(Then([FoldersFound(|dirs|), KeywordsUsed(keywords)], MoviesRun(dirs, keywords, cancelAt, 0, extract)), cancelAt)
  }

  // What the stretches do.

  /** A well-formed stretch from observation number `first` that does a prefix of
      `work`, and all of it unless one of its polls found the flag cleared. */
  predicate Performs(s: Stretch, work: seq<Work>, cancelAt: Option<nat>, first: nat, extract: Request -> bool) {
    && Segment(s.events, cancelAt, first, s.next, extract)
    && Jobs(s.events) <= work
    && (!Stopped(s.events) ==> Jobs(s.events) == work)
  }

  /** Two stretches one after the other do their work one after the other. */
  lemma PerformsSeq(a: Stretch, wa: seq<Work>, b: Stretch, wb: seq<Work>,
                    cancelAt: Option<nat>, first: nat, extract: Request -> bool)
    requires Performs(a, wa, cancelAt, first, extract)
    requires Performs(b, wb, cancelAt, a.next, extract)
    ensures Performs(Stretch(a.events + b.events, b.next, b.failed), wa + wb, cancelAt, first, extract)
    ensures Stopped(a.events + b.events) <==> Stopped(a.events) || Stopped(b.events)
  {
    SegmentConcat(a.events, b.events, cancelAt, first, a.next, b.next, extract);
    if Stopped(a.events) {
      assert Jobs(a.events) + Jobs(b.events) == Jobs(a.events);
      PrefixAppend(Jobs(a.events), wa, wb);
    } else {
      PrefixExtend(wa, Jobs(b.events), wb);
    }
  }

  /** A poll that finds the flag set and the work it lets through. */
  lemma PerformsWork(point: Checkpoint, w: Event, cancelAt: Option<nat>, k: nat, extract: Request -> bool)
    requires Running(cancelAt, k) && WorkFor(point, w, extract)
    ensures Performs(Stretch([Observed(point, true), w], k + 1, false), JobOf(w), cancelAt, k, extract)
    ensures !Stopped([Observed(point, true), w])
  {
    WorkSegment(point, w, cancelAt, k, extract);
  }

  /** A poll that finds the flag cleared does none of the work still due. */
  lemma PerformsStop(point: Checkpoint, work: seq<Work>, cancelAt: Option<nat>, k: nat, extract: Request -> bool)
    requires !Running(cancelAt, k)
    ensures Performs(Stretch([Observed(point, false)], k + 1, false), work, cancelAt, k, extract)
  {
    StopSegment(point, cancelAt, k, extract);
  }

  /** A logged condition does no work. */
  lemma PerformsQuiet(e: Event, failed: bool, cancelAt: Option<nat>, k: nat, extract: Request -> bool)
    requires !e.Observed? && !IsWork(e)
    ensures Performs(Stretch([e], k, failed), [], cancelAt, k, extract)
    ensures !Stopped([e])
  {
    QuietSegment(e, cancelAt, k, extract);
  }

  /** A poll that finds the flag set, the work it lets through, what that work
      leads to, and the rest of the loop. */
  lemma PerformsStep(point: Checkpoint, w: Event, here: Stretch, wh: seq<Work>, rest: Stretch, wr: seq<Work>,
                     cancelAt: Option<nat>, k: nat, extract: Request -> bool)
    requires Running(cancelAt, k) && WorkFor(point, w, extract)
    requires Performs(here, wh, cancelAt, k + 1, extract)
    requires Performs(rest, wr, cancelAt, here.next, extract)
    ensures Performs(Then([Observed(point, true), w] + here.events, rest), JobOf(w) + wh + wr, cancelAt, k, extract)
    ensures Stopped(([Observed(point, true), w] + here.events) + rest.events) <==> Stopped(here.events) || Stopped(rest.events)
  {
    var poll := Stretch([Observed(point, true), w], k + 1, false);
    PerformsWork(point, w, cancelAt, k, extract);
    PerformsSeq(poll, JobOf(w), here, wh, cancelAt, k, extract);
    PerformsSeq(Stretch(poll.events + here.events, here.next, here.failed), JobOf(w) + wh, rest, wr, cancelAt, k, extract);
  }

  /** The track loop does the file's extractions in order, each right after a poll
      that found the flag set, until a poll finds it cleared. */
  lemma {:induction false} TrackRunPerforms(movie: string, file: string, tracks: seq<CommentaryTrack>,
                                            cancelAt: Option<nat>, k: nat, extract: Request -> bool)
    ensures Performs(TrackRun(movie, file, tracks, cancelAt, k, extract), TrackWork(movie, file, tracks), cancelAt, k, extract)
    ensures !TrackRun(movie, file, tracks, cancelAt, k, extract).failed
    decreases |tracks|
  {
    if tracks == [] {
      assert Segment([], cancelAt, k, k, extract);
    } else if !Running(cancelAt, k) {
      PerformsStop(BeforeTrack, TrackWork(movie, file, tracks), cancelAt, k, extract);
    } else {
      var request := RequestFor(movie, file, tracks[0]);
      var w := Extracted(request, extract(request));
      var rest := TrackRun(movie, file, tracks[1..], cancelAt, k + 1, extract);
      PerformsWork(BeforeTrack, w, cancelAt, k, extract);
      TrackRunPerforms(movie, file, tracks[1..], cancelAt, k + 1, extract);
      PerformsSeq(Stretch([Observed(BeforeTrack, true), w], k + 1, false), JobOf(w),
                  rest, TrackWork(movie, file, tracks[1..]), cancelAt, k, extract);
    }
  }

  lemma FileRunPerforms(movie: string, f: FileEntry, keywords: seq<string>,
                        cancelAt: Option<nat>, k: nat, extract: Request -> bool)
    ensures Performs(FileRun(movie, f, keywords, cancelAt, k, extract),
                     TrackWork(movie, f.name, Selected(f, keywords)), cancelAt, k, extract)
    ensures !FileRun(movie, f, keywords, cancelAt, k, extract).failed
  {
    match f.probe
    case ProbeFailed(failure) =>
      PerformsQuiet(FileFailed(movie, f.name, failure), false, cancelAt, k, extract);
    case Parsed(info) =>
      var tracks := SelectCommentary(TracksOf(info), keywords);
      if tracks == [] {
        PerformsQuiet(NoCommentary(movie, f.name), false, cancelAt, k, extract);
      } else {
        TrackRunPerforms(movie, f.name, tracks, cancelAt, k, extract);
      }
  }

  /** The file loop queries the files in directory order, each followed by its own
      extractions, each query and extraction right after a poll that found the flag
      set, until a poll finds it cleared. */
  lemma {:induction false} FilesRunPerforms(movie: string, files: seq<FileEntry>, keywords: seq<string>,
                                            cancelAt: Option<nat>, k: nat, extract: Request -> bool)
    ensures Performs(FilesRun(movie, files, keywords, cancelAt, k, extract), FilesPlan(movie, files, keywords), cancelAt, k, extract)
    ensures !FilesRun(movie, files, keywords, cancelAt, k, extract).failed
    decreases |files|
  {
    if files == [] {
      assert Segment([], cancelAt, k, k, extract);
    } else if !Running(cancelAt, k) {
      PerformsStop(BeforeFile, FilesPlan(movie, files, keywords), cancelAt, k, extract);
    } else {
      var f := files[0];
      var here := FileRun(movie, f, keywords, cancelAt, k + 1, extract);
      FileRunPerforms(movie, f, keywords, cancelAt, k + 1, extract);
      FilesRunPerforms(movie, files[1..], keywords, cancelAt, here.next, extract);
      PerformsStep(BeforeFile, QueryTracks(movie, f.name), here, TrackWork(movie, f.name, Selected(f, keywords)),
                   FilesRun(movie, files[1..], keywords, cancelAt, here.next, extract), FilesPlan(movie, files[1..], keywords),
                   cancelAt, k, extract);
    }
  }

  lemma FolderRunPerforms(movie: string, entries: seq<FileEntry>, keywords: seq<string>,
                          cancelAt: Option<nat>, k: nat, extract: Request -> bool)
    ensures Performs(FolderRun(movie, entries, keywords, cancelAt, k, extract),
                     FilesPlan(movie, MkvFiles(entries), keywords), cancelAt, k, extract)
    ensures !FolderRun(movie, entries, keywords, cancelAt, k, extract).failed
  {
    if MkvFiles(entries) == [] {
      PerformsQuiet(NoMkvFiles(movie), false, cancelAt, k, extract);
    } else {
      FilesRunPerforms(movie, MkvFiles(entries), keywords, cancelAt, k, extract);
    }
  }

  /** The folder loop lists the folders in order, each followed by the work for its
      files, each listing right after a poll that found the flag set, until a poll
      finds it cleared. */
  lemma {:induction false} MoviesRunPerforms(dirs: seq<MovieEntry>, keywords: seq<string>,
                                             cancelAt: Option<nat>, k: nat, extract: Request -> bool)
    ensures Performs(MoviesRun(dirs, keywords, cancelAt, k, extract), MoviesPlan(dirs, keywords), cancelAt, k, extract)
    decreases |dirs|
  {
    var r := MoviesRun(dirs, keywords, cancelAt, k, extract);
    if dirs == [] {
      assert Segment([], cancelAt, k, k, extract);
    } else if !Running(cancelAt, k) {
      PerformsStop(BeforeMovie, MoviesPlan(dirs, keywords), cancelAt, k, extract);
    } else {
      var m := dirs[0];
      var w := ScanFolder(m.name);
      match m.contents
      case Unreadable =>
        var poll := Stretch([Observed(BeforeMovie, true), w], k + 1, false);
        PerformsWork(BeforeMovie, w, cancelAt, k, extract);
        PerformsQuiet(ScanFailed, true, cancelAt, k + 1, extract);
        PerformsSeq(poll, JobOf(w), Stretch([ScanFailed], k + 1, true), [], cancelAt, k, extract);
        assert poll.events + [ScanFailed] == r.events;
        assert MoviesPlan(dirs, keywords) == JobOf(w) + [];
      case Listed(entries) =>
        var here := FolderRun(m.name, entries, keywords, cancelAt, k + 1, extract);
        FolderRunPerforms(m.name, entries, keywords, cancelAt, k + 1, extract);
        MoviesRunPerforms(dirs[1..], keywords, cancelAt, here.next, extract);
        PerformsStep(BeforeMovie, w, here, FilesPlan(m.name, MkvFiles(entries), keywords),
                     MoviesRun(dirs[1..], keywords, cancelAt, here.next, extract), MoviesPlan(dirs[1..], keywords),
                     cancelAt, k, extract);
    }
  }

  /** Placing a poll, its work and what follows it before the rest of the folder
      loop: the whole raises only when the rest does, and then still ends on the
      logged failure with no poll having found the flag cleared. */
  lemma FailureStep(pre: seq<Event>, here: Stretch, rest: Stretch, cancelAt: Option<nat>)
    requires !Stopped(pre)
    requires Stopped(here.events) ==> !Running(cancelAt, here.next)
    requires rest.failed ==> && Running(cancelAt, here.next) && !Stopped(rest.events)
                             && rest.events != [] && rest.events[|rest.events| - 1] == ScanFailed
    ensures var r := Then(pre + here.events, rest);
            && r.failed == rest.failed
            && (r.failed ==> !Stopped(r.events) && r.events != [] && r.events[|r.events| - 1] == ScanFailed)
            && (!Stopped(r.events) ==> !Stopped(rest.events))
  {
    StoppedConcat(pre, here.events);
    StoppedConcat(pre + here.events, rest.events);
  }

  /** Once a poll inside a folder has found the flag cleared, the flag stays
      cleared for the next folder's poll. */
  lemma FolderStopsLate(movie: string, entries: seq<FileEntry>, keywords: seq<string>,
                        cancelAt: Option<nat>, k: nat, extract: Request -> bool)
    ensures var h := FolderRun(movie, entries, keywords, cancelAt, k, extract);
            Stopped(h.events) ==> !Running(cancelAt, h.next)
  {
    FolderRunPerforms(movie, entries, keywords, cancelAt, k, extract);
  }

  /** The folder loop raises exactly at the first folder that cannot be listed,
      before any poll has found the flag cleared, and its last event is then the
      logged failure; a loop that neither raises nor is cancelled listed every
      folder. */
  lemma {:induction false} MoviesRunFailure(dirs: seq<MovieEntry>, keywords: seq<string>,
                                            cancelAt: Option<nat>, k: nat, extract: Request -> bool)
    ensures var r := MoviesRun(dirs, keywords, cancelAt, k, extract);
            r.failed ==> Running(cancelAt, k) && !Stopped(r.events) && !Readable(dirs)
                         && r.events != [] && r.events[|r.events| - 1] == ScanFailed
    ensures var r := MoviesRun(dirs, keywords, cancelAt, k, extract);
            !r.failed && !Stopped(r.events) ==> Readable(dirs)
    decreases |dirs|, 1
  {
    if dirs != [] && !Running(cancelAt, k) {
      var r := MoviesRun(dirs, keywords, cancelAt, k, extract);
      StoppedIff(r.events);
      assert IsStop(r.events[0]);
    } else if dirs != [] && dirs[0].contents.Unreadable? {
      var t := [Observed(BeforeMovie, true), ScanFolder(dirs[0].name), ScanFailed];
      StoppedIff(t);
      ReadableTail(dirs);
    } else if dirs != [] {
      ListedFolderFailure(dirs, keywords, cancelAt, k, extract);
    }
  }

  lemma {:induction false} ListedFolderFailure(dirs: seq<MovieEntry>, keywords: seq<string>,
                                               cancelAt: Option<nat>, k: nat, extract: Request -> bool)
    requires dirs != [] && Running(cancelAt, k) && dirs[0].contents.Listed?
    ensures var r := MoviesRun(dirs, keywords, cancelAt, k, extract);
            r.failed ==> !Stopped(r.events) && !Readable(dirs)
                         && r.events != [] && r.events[|r.events| - 1] == ScanFailed
    ensures var r := MoviesRun(dirs, keywords, cancelAt, k, extract);
            !r.failed && !Stopped(r.events) ==> Readable(dirs)
    decreases |dirs|, 0
  {
    var m := dirs[0];
    var poll := [Observed(BeforeMovie, true), ScanFolder(m.name)];
    var here := FolderRun(m.name, m.contents.entries, keywords, cancelAt, k + 1, extract);
    StoppedIff(poll);
    ReadableTail(dirs);
    FolderStopsLate(m.name, m.contents.entries, keywords, cancelAt, k + 1, extract);
    MoviesRunFailure(dirs[1..], keywords, cancelAt, here.next, extract);
    FailureStep(poll, here, MoviesRun(dirs[1..], keywords, cancelAt, here.next, extract), cancelAt);
  }

  // ---------------------------------------------------------------------------
  // What a whole run promises.

  /** The end of a run, for any well-formed stretch from observation 0 that does a
      prefix of `work` and, if it raised, did so before any poll found the flag
      cleared and with the failure as its last event. */
  lemma FinishFacts(s: Stretch, work: seq<Work>, cancelAt: Option<nat>, extract: Request -> bool)
    requires Performs(s, work, cancelAt, 0, extract)
    requires s.failed ==> !Stopped(s.events) && s.events != [] && s.events[|s.events| - 1] == ScanFailed
    ensures var o := Finish(s, cancelAt);
            && Valid(o.trace, cancelAt, 0, extract) && !Pending(o.trace)
            && Jobs(o.trace) <= work
            && (o.status != Cancelled ==> Jobs(o.trace) == work)
            && (cancelAt.None? ==> o.status != Cancelled)
            && |o.trace| > 0
            && (o.status == Error <==> s.failed)
            && (o.status == Error ==> o.trace == s.events && o.trace[|o.trace| - 1] == ScanFailed)
            && (o.status != Error ==> o.trace[..|o.trace| - 1] == s.events
                                      && o.trace[|o.trace| - 1] == Observed(AtEnd, o.status == Done)
                                      && (Stopped(o.trace) <==> o.status == Cancelled))
            && (!s.failed ==> (o.status == Done <==> Running(cancelAt, |work|)))
            && (o.status == Done ==> |Flags(o.trace)| == |work| + 1)
            && (Stopped(s.events) ==> o.status == Cancelled)
  {
    if !s.failed {
      var e := Observed(AtEnd, Running(cancelAt, s.next));
      FinalPoll(s.events, cancelAt, s.next, extract);
      StoppedConcat(s.events, [e]);
      assert Stopped([e]) <==> !Running(cancelAt, s.next) by {
        assert [e][..0] == [];
      }
    }
  }

  /** The header lines placed before the folder loop change neither what it does
      nor how it ends. */
  lemma HeaderStep(header: seq<Event>, body: Stretch, work: seq<Work>, cancelAt: Option<nat>, extract: Request -> bool)
    requires Segment(header, cancelAt, 0, 0, extract) && Jobs(header) == [] && !Stopped(header)
    requires Performs(body, work, cancelAt, 0, extract)
    ensures Performs(Then(header, body), work, cancelAt, 0, extract)
    ensures Stopped(Then(header, body).events) <==> Stopped(body.events)
    ensures body.events != [] ==> Then(header, body).events[|Then(header, body).events| - 1] == body.events[|body.events| - 1]
  {
    PerformsSeq(Stretch(header, 0, false), [], body, work, cancelAt, 0, extract);
    assert [] + work == work;
  }

  /** The header lines and the folder loop: a well-formed stretch from observation 0
      that does a prefix of the folders' plan, and that raised only before any poll
      found the flag cleared, at a folder that cannot be listed. */
  lemma BodyShape(dirs: seq<MovieEntry>, keywords: seq<string>, cancelAt: Option<nat>, extract: Request -> bool)
    ensures var s := Then([FoldersFound(|dirs|), KeywordsUsed(keywords)], MoviesRun(dirs, keywords, cancelAt, 0, extract));
            && Performs(s, MoviesPlan(dirs, keywords), cancelAt, 0, extract)
            && (s.failed ==> !Stopped(s.events) && s.events != [] && s.events[|s.events| - 1] == ScanFailed)
            && (s.failed ==> !Readable(dirs))
            && (!s.failed && !Stopped(s.events) ==> Readable(dirs))
  {
    HeaderSegment(|dirs|, keywords, cancelAt, extract);
    MoviesRunPerforms(dirs, keywords, cancelAt, 0, extract);
    MoviesRunFailure(dirs, keywords, cancelAt, 0, extract);
    HeaderStep([FoldersFound(|dirs|), KeywordsUsed(keywords)], MoviesRun(dirs, keywords, cancelAt, 0, extract),
               MoviesPlan(dirs, keywords), cancelAt, extract);
  }

  /** The order of a run that reached the folder loop, for any stretch with the
      shape of its trace up to the final poll. */
  lemma OrderOf(s: Stretch, work: seq<Work>, cancelAt: Option<nat>, extract: Request -> bool)
    requires Performs(s, work, cancelAt, 0, extract)
    requires s.failed ==> !Stopped(s.events) && s.events != [] && s.events[|s.events| - 1] == ScanFailed
    ensures var t := Finish(s, cancelAt).trace;
            && Valid(t, cancelAt, 0, extract) && !Pending(t)
            && PolledBeforeWork(t) && PollsAnswered(t)
            && FlagsFollow(t, cancelAt, 0) && NoExtractAfterStop(t) && OutcomesFrom(t, extract)
  {
    var t := Finish(s, cancelAt).trace;
    FinishFacts(s, work, cancelAt, extract);
    ValidMeans(t, cancelAt, 0, extract);
    PolledMeans(t, cancelAt, 0, extract);
    AnsweredMeans(t, cancelAt, 0, extract);
  }

  /** The work of a run that reached the folder loop, for any stretch with the shape
      of its trace up to the final poll. */
  lemma WorkOf(s: Stretch, work: seq<Work>, cancelAt: Option<nat>, extract: Request -> bool)
    requires Performs(s, work, cancelAt, 0, extract)
    requires s.failed ==> !Stopped(s.events) && s.events != [] && s.events[|s.events| - 1] == ScanFailed
    ensures var o := Finish(s, cancelAt);
            && Jobs(o.trace) <= work
            && Requests(o.trace) <= Extractions(work)
            && (o.status != Cancelled ==> Jobs(o.trace) == work && Requests(o.trace) == Extractions(work))
            && (cancelAt.None? ==> o.status != Cancelled)
  {
    var o := Finish(s, cancelAt);
    FinishFacts(s, work, cancelAt, extract);
    RequestsAreExtractions(o.trace);
    ExtractionsPrefix(Jobs(o.trace), work);
  }

  /** The order of the run: every piece of work directly follows a poll of its own
      loop that found the flag set, every such poll is directly followed by its work,
      the run ends on a poll of none of the loops, the observations follow the flag,
      no extraction follows an observation that found it cleared, and outcomes are
      what `mkvextract` reported. */
  lemma RunOrder(root: Listing<MovieEntry>, keywordField: string, cancelAt: Option<nat>, extract: Request -> bool)
    ensures var t := RunOf(root, keywordField, cancelAt, extract).trace;
            && Valid(t, cancelAt, 0, extract) && !Pending(t)
            && PolledBeforeWork(t) && PollsAnswered(t)
            && FlagsFollow(t, cancelAt, 0) && NoExtractAfterStop(t) && OutcomesFrom(t, extract)
  {
    if root.Unreadable? {
      var t := [ScanFailed];
      assert t[..0] == [];
      assert Gated([], ScanFailed);
      ValidMeans(t, cancelAt, 0, extract);
      PolledMeans(t, cancelAt, 0, extract);
      AnsweredMeans(t, cancelAt, 0, extract);
    } else {
      var dirs, keywords := MovieDirs(root.entries), EffectiveKeywords(keywordField);
      BodyShape(dirs, keywords, cancelAt, extract);
      OrderOf(Then([FoldersFound(|dirs|), KeywordsUsed(keywords)], MoviesRun(dirs, keywords, cancelAt, 0, extract)),
              MoviesPlan(dirs, keywords), cancelAt, extract);
    }
  }

  /** What a run does is a prefix of the plan, and all of it when it is not
      cancelled; a run that no one cancels is not cancelled. */
  lemma RunWork(root: Listing<MovieEntry>, keywordField: string, cancelAt: Option<nat>, extract: Request -> bool)
    ensures var o := RunOf(root, keywordField, cancelAt, extract);
            && Jobs(o.trace) <= WorkPlan(root, keywordField)
            && Requests(o.trace) <= Plan(root, keywordField)
            && (o.status != Cancelled ==> Jobs(o.trace) == WorkPlan(root, keywordField) && Requests(o.trace) == Plan(root, keywordField))
            && (cancelAt.None? ==> o.status != Cancelled)
  {
    if root.Listed? {
      var dirs, keywords := MovieDirs(root.entries), EffectiveKeywords(keywordField);
      BodyShape(dirs, keywords, cancelAt, extract);
      WorkOf(Then([FoldersFound(|dirs|), KeywordsUsed(keywords)], MoviesRun(dirs, keywords, cancelAt, 0, extract)),
             MoviesPlan(dirs, keywords), cancelAt, extract);
    } else {
      var t := [ScanFailed];
      assert t[..0] == [];
      assert Jobs(t) == [] && Requests(t) == [];
    }
  }

  /** A run cancelled at observation c does at most c pieces of work, and so
      requests at most c extractions. */
  lemma RunBound(root: Listing<MovieEntry>, keywordField: string, cancelAt: Option<nat>, extract: Request -> bool)
    ensures var o := RunOf(root, keywordField, cancelAt, extract);
            cancelAt.Some? ==> |Requests(o.trace)| <= |Jobs(o.trace)| <= cancelAt.value
  {
    var o := RunOf(root, keywordField, cancelAt, extract);
    RunOrder(root, keywordField, cancelAt, extract);
    WorkBound(o.trace, cancelAt, 0, extract);
    RequestsWithinWork(o.trace);
  }

  /** How a run that reached the folder loop ends, for any stretch with the shape
      of its trace up to the final poll; `hits` says whether some listing the run
      needs fails. */
  lemma StatusOf(s: Stretch, work: seq<Work>, hits: bool, cancelAt: Option<nat>, extract: Request -> bool)
    requires Performs(s, work, cancelAt, 0, extract)
    requires s.failed ==> !Stopped(s.events) && s.events != [] && s.events[|s.events| - 1] == ScanFailed
    requires s.failed ==> hits
    requires !s.failed && !Stopped(s.events) ==> !hits
    ensures var o := Finish(s, cancelAt);
            && |o.trace| > 0
            && (o.status == Error <==> hits && !HasStop(o.trace))
            && (o.status == Error ==> o.trace[|o.trace| - 1] == ScanFailed)
            && (o.status != Error ==> o.trace[|o.trace| - 1] == Observed(AtEnd, o.status == Done))
            && (!hits ==> (o.status == Done <==> Running(cancelAt, |work|)))
            && (o.status == Done ==> |Flags(o.trace)| == |work| + 1)
            && (o.status != Error && HasStop(o.trace[..|o.trace| - 1]) ==> o.status == Cancelled)
  {
    var o := Finish(s, cancelAt);
    FinishFacts(s, work, cancelAt, extract);
    StoppedIff(o.trace);
    StoppedIff(s.events);
  }

  /** A run ends with an error exactly when a listing it needs fails before any
      poll found the flag cleared, the error being then its last event; a library
      that cannot be listed gives only the error. */
  lemma RunFails(root: Listing<MovieEntry>, keywordField: string, cancelAt: Option<nat>, extract: Request -> bool)
    ensures var o := RunOf(root, keywordField, cancelAt, extract);
            && |o.trace| > 0
            && (root.Unreadable? ==> o.status == Error && o.trace == [ScanFailed])
            && (o.status == Error <==> HitsUnreadable(root) && !HasStop(o.trace))
            && (o.status == Error ==> o.trace[|o.trace| - 1] == ScanFailed)
  {
    if root.Unreadable? {
      StoppedIff([ScanFailed]);
      assert [ScanFailed][..0] == [];
    } else {
      var dirs, keywords := MovieDirs(root.entries), EffectiveKeywords(keywordField);
      BodyShape(dirs, keywords, cancelAt, extract);
      StatusOf(Then([FoldersFound(|dirs|), KeywordsUsed(keywords)], MoviesRun(dirs, keywords, cancelAt, 0, extract)),
               MoviesPlan(dirs, keywords), !Readable(dirs), cancelAt, extract);
    }
  }

  /** A run that does not fail ends on the final poll, whose value is the status,
      and is cancelled whenever an earlier poll found the flag cleared. */
  lemma RunEnds(root: Listing<MovieEntry>, keywordField: string, cancelAt: Option<nat>, extract: Request -> bool)
    ensures var o := RunOf(root, keywordField, cancelAt, extract);
            && (o.status != Error ==> o.trace[|o.trace| - 1] == Observed(AtEnd, o.status == Done))
            && (o.status != Error && HasStop(o.trace[..|o.trace| - 1]) ==> o.status == Cancelled)
  {
    if root.Listed? {
      var dirs, keywords := MovieDirs(root.entries), EffectiveKeywords(keywordField);
      BodyShape(dirs, keywords, cancelAt, extract);
      StatusOf(Then([FoldersFound(|dirs|), KeywordsUsed(keywords)], MoviesRun(dirs, keywords, cancelAt, 0, extract)),
               MoviesPlan(dirs, keywords), !Readable(dirs), cancelAt, extract);
    }
  }

  /** A run over a library whose every listing succeeds is done exactly when the
      flag is still set at the observation after the last of the library's polls,
      so that a run whose cancellation comes later completes; a completed run made
      exactly one poll per folder, file and commentary track, and the final one. */
  lemma RunCompletes(root: Listing<MovieEntry>, keywordField: string, cancelAt: Option<nat>, extract: Request -> bool)
    ensures var o := RunOf(root, keywordField, cancelAt, extract);
            && (!HitsUnreadable(root) ==> (o.status == Done <==> Running(cancelAt, PollCount(root, keywordField))))
            && (o.status == Done ==> |Flags(o.trace)| == PollCount(root, keywordField) + 1)
  {
    if root.Listed? {
      var dirs, keywords := MovieDirs(root.entries), EffectiveKeywords(keywordField);
      BodyShape(dirs, keywords, cancelAt, extract);
      StatusOf(Then([FoldersFound(|dirs|), KeywordsUsed(keywords)], MoviesRun(dirs, keywords, cancelAt, 0, extract)),
               MoviesPlan(dirs, keywords), !Readable(dirs), cancelAt, extract);
      if Readable(dirs) {
        MoviesPlanSize(dirs, keywords);
      }
    }
  }

  /** An empty library: the header lines and the final poll, at observation 0. */
  lemma RunEmptyLibrary(root: Listing<MovieEntry>, keywordField: string, cancelAt: Option<nat>, extract: Request -> bool)
    requires root.Listed? && MovieDirs(root.entries) == []
    ensures RunOf(root, keywordField, cancelAt, extract).trace
         == [FoldersFound(0), KeywordsUsed(EffectiveKeywords(keywordField)), Observed(AtEnd, Running(cancelAt, 0))]
  {
  }

  // ---------------------------------------------------------------------------
  // The run, one method per loop.

  /** The track loop (commextract.py:283-313): before each track, poll the flag and
      stop if it is cleared; otherwise request the extraction and record its outcome,
      whatever it is, and go on. */
  method ExtractTracks(movie: string, file: string, tracks: seq<CommentaryTrack>,
                       cancelAt: Option<nat>, first: nat, extract: Request -> bool)
    returns (events: seq<Event>, next: nat)
    ensures Stretch(events, next, false) == TrackRun(movie, file, tracks, cancelAt, first, extract)
  {
    events, next := [], first;
    var k := 0;
    while k < |tracks|
      invariant 0 <= k <= |tracks|
      invariant TrackRun(movie, file, tracks, cancelAt, first, extract)
             == Then(events, TrackRun(movie, file, tracks[k..], cancelAt, next, extract))
    {
      assert tracks[k..][0] == tracks[k] && tracks[k..][1..] == tracks[k + 1..];
      if !Running(cancelAt, next) {
        events := events + [Observed(BeforeTrack, false)];
        next := next + 1;
        break;
      }
      var request := RequestFor(movie, file, tracks[k]);
      var ok := extract(request);
      var step := [Observed(BeforeTrack, true), Extracted(request, ok)];
      ThenAssoc(events, step, TrackRun(movie, file, tracks[k + 1..], cancelAt, next + 1, extract));
      events := events + step;
      next := next + 1;
      k := k + 1;
    }
    assert events + [] == events;
  }

  /** One `.mkv` file, after its `mkvmerge -J` query (commextract.py:211-313): a
      file whose metadata cannot be read, or that has no commentary track, is logged
      and skipped; otherwise its selected tracks are extracted. */
  method ProcessFile(movie: string, file: FileEntry, keywords: seq<string>,
                     cancelAt: Option<nat>, first: nat, extract: Request -> bool)
    returns (events: seq<Event>, next: nat)
    ensures Stretch(events, next, false) == FileRun(movie, file, keywords, cancelAt, first, extract)
  {
    match file.probe {
      case ProbeFailed(failure) =>
        events, next := [FileFailed(movie, file.name, failure)], first;
      case Parsed(info) =>
        var tracks := SelectTracks(info, keywords);
        if tracks == [] {
          events, next := [NoCommentary(movie, file.name)], first;
        } else {
          events, next := ExtractTracks(movie, file.name, tracks, cancelAt, first, extract);
        }
    }
  }

  /** The file loop (commextract.py:195-313): before each file, poll the flag and stop
      if it is cleared; otherwise query the file's tracks and handle the file. */
  method ProcessFiles(movie: string, files: seq<FileEntry>, keywords: seq<string>,
                      cancelAt: Option<nat>, first: nat, extract: Request -> bool)
    returns (events: seq<Event>, next: nat)
    ensures Stretch(events, next, false) == FilesRun(movie, files, keywords, cancelAt, first, extract)
  {
    events, next := [], first;
    var j := 0;
    while j < |files|
      invariant 0 <= j <= |files|
      invariant FilesRun(movie, files, keywords, cancelAt, first, extract)
             == Then(events, FilesRun(movie, files[j..], keywords, cancelAt, next, extract))
    {
      assert files[j..][0] == files[j] && files[j..][1..] == files[j + 1..];
      if !Running(cancelAt, next) {
        events := events + [Observed(BeforeFile, false)];
        next := next + 1;
        break;
      }
      var sub, after := ProcessFile(movie, files[j], keywords, cancelAt, next + 1, extract);
      var step := [Observed(BeforeFile, true), QueryTracks(movie, files[j].name)] + sub;
      ThenAssoc(events, step, FilesRun(movie, files[j + 1..], keywords, cancelAt, after, extract));
      events, next := events + step, after;
      j := j + 1;
    }
    assert events + [] == events;
  }

  /** One movie folder whose listing succeeded (commextract.py:189-313): its `.mkv`
      files, or a notice when it has none. */
  method ProcessFolder(movie: string, entries: seq<FileEntry>, keywords: seq<string>,
                       cancelAt: Option<nat>, first: nat, extract: Request -> bool)
    returns (events: seq<Event>, next: nat)
    ensures Stretch(events, next, false) == FolderRun(movie, entries, keywords, cancelAt, first, extract)
  {
    var files := MkvFiles(entries);
    if files == [] {
      events, next := [NoMkvFiles(movie)], first;
    } else {
      events, next := ProcessFiles(movie, files, keywords, cancelAt, first, extract);
    }
  }

  /** The folder loop (commextract.py:177-313): before each folder, poll the flag and
      stop if it is cleared; otherwise list the folder. A folder that cannot be
      listed raises, which ends the whole run (`failed`). */
  method ProcessMovies(dirs: seq<MovieEntry>, keywords: seq<string>,
                       cancelAt: Option<nat>, first: nat, extract: Request -> bool)
    returns (events: seq<Event>, next: nat, failed: bool)
    ensures Stretch(events, next, failed) == MoviesRun(dirs, keywords, cancelAt, first, extract)
  {
    events, next, failed := [], first, false;
    var i := 0;
    while i < |dirs|
      invariant 0 <= i <= |dirs|
      invariant !failed
      invariant MoviesRun(dirs, keywords, cancelAt, first, extract)
             == Then(events, MoviesRun(dirs[i..], keywords, cancelAt, next, extract))
    {
      assert dirs[i..][0] == dirs[i] && dirs[i..][1..] == dirs[i + 1..];
      if !Running(cancelAt, next) {
        events := events + [Observed(BeforeMovie, false)];
        next := next + 1;
        break;
      }
      var movie := dirs[i];
      if movie.contents.Unreadable? {
        events := events + [Observed(BeforeMovie, true), ScanFolder(movie.name), ScanFailed];
        next := next + 1;
        failed := true;
        return;
      }
      var sub, after := ProcessFolder(movie.name, movie.contents.entries, keywords, cancelAt, next + 1, extract);
      var step := [Observed(BeforeMovie, true), ScanFolder(movie.name)] + sub;
      ThenAssoc(events, step, MoviesRun(dirs[i + 1..], keywords, cancelAt, after, extract));
      events, next := events + step, after;
      i := i + 1;
    }
    assert events + [] == events;
  }

  /** The whole run (commextract.py:157-324): list the library, parse the keywords
      and process the folders; a listing that fails ends the run with an error, and
      otherwise the flag, read once more, decides between completion and
      cancellation. */
  method Run(root: Listing<MovieEntry>, keywordField: string, cancelAt: Option<nat>, extract: Request -> bool)
    returns (trace: seq<Event>, status: Status)
    ensures Outcome(trace, status) == RunOf(root, keywordField, cancelAt, extract)
    ensures root.Unreadable? ==> status == Error && trace == [ScanFailed]
    ensures Jobs(trace) <= WorkPlan(root, keywordField) && Requests(trace) <= Plan(root, keywordField)
    ensures status != Cancelled ==> Requests(trace) == Plan(root, keywordField)
    ensures cancelAt.Some? ==> |Requests(trace)| <= |Jobs(trace)| <= cancelAt.value
    ensures PolledBeforeWork(trace) && PollsAnswered(trace) && NoExtractAfterStop(trace)
    ensures status == Error <==> HitsUnreadable(root) && !HasStop(trace)
    ensures !HitsUnreadable(root) ==> (status == Done <==> Running(cancelAt, PollCount(root, keywordField)))
  {
    if root.Unreadable? {
      trace, status := [ScanFailed], Error;
    } else {
      var dirs := MovieDirs(root.entries);
      var keywords := ParseKeywords(keywordField);
      if |keywords| == 0 {
        keywords := [FallbackKeyword];
      }
      var header := [FoldersFound(|dirs|), KeywordsUsed(keywords)];
      var events, next, failed := ProcessMovies(dirs, keywords, cancelAt, 0, extract);
      trace := header + events;
      if failed {
        status := Error;
      } else {
        var running := Running(cancelAt, next);
        trace := trace + [Observed(AtEnd, running)];
        status := if running then Done else Cancelled;
      }
    }
    RunOrder(root, keywordField, cancelAt, extract);
    RunWork(root, keywordField, cancelAt, extract);
    RunBound(root, keywordField, cancelAt, extract);
    RunFails(root, keywordField, cancelAt, extract);
    RunEnds(root, keywordField, cancelAt, extract);
    RunCompletes(root, keywordField, cancelAt, extract);
  }
}
