/**
 * The directory walk (commextract.py:163-164, 186-187): the movie folders of the
 * input directory and the `.mkv` files of each folder. Directory contents are
 * given as sequences in listing order; whether an entry is a directory or a
 * regular file, and what querying a file's metadata reports, are parts of the entry.
 */
module Scan {
  import opened Text
  import opened Metadata

  /** What `os.listdir` gives: the entries, or an error (an exception in the code). */
  datatype Listing<T> = Listed(entries: seq<T>) | Unreadable

  /** An entry of a movie folder, with the metadata report `mkvmerge -J` gives for it. */
  datatype FileEntry = FileEntry(name: string, isFile: bool, probe: Probe)

  /** An entry of the input directory, with its own listing. */
  datatype MovieEntry = MovieEntry(name: string, isDir: bool, contents: Listing<FileEntry>)

  /** `f.lower().endswith(".mkv")`. */
  predicate IsMkvName(name: string) {
    EndsWith(Lower(name), ".mkv")
  }

  /** An entry taken as a container file: an `.mkv` name, in any case, and a regular file. */
  predicate IsMkvCandidate(e: FileEntry) {
    IsMkvName(e.name) && e.isFile
  }

  /** The comprehension at commextract.py:186-187. */
  function MkvFiles(entries: seq<FileEntry>): seq<FileEntry>
  {
    if entries == [] then []
    else
      var n := |entries| - 1;
      MkvFiles(entries[..n]) + (if IsMkvCandidate(entries[n]) then [entries[n]] else [])
  }

  /** The comprehension at commextract.py:163-164. */
  function MovieDirs(entries: seq<MovieEntry>): seq<MovieEntry>
  {
    if entries == [] then []
    else
      var n := |entries| - 1;
      MovieDirs(entries[..n]) + (if entries[n].isDir then [entries[n]] else [])
  }

  /** The name test looks only at the last four characters, ignoring the case of letters. */
  lemma MkvNameIff(name: string)
    ensures IsMkvName(name) <==> |name| >= 4 && Lower(name[|name| - 4..]) == ".mkv"
    ensures IsMkvName(name) <==> IsMkvName(Lower(name))
  {
    LowerProperties(name);
    if |name| >= 4 {
      assert Lower(name)[|name| - 4..] == Lower(name[|name| - 4..]);
    }
  }

  /** Upper- and mixed-case extensions count; names that merely contain ".mkv" do not. */
  lemma MkvNameExamples(stem: string)
    ensures IsMkvName(stem + ".MKV") && IsMkvName(stem + ".Mkv") && IsMkvName(stem + ".mkv")
    ensures !IsMkvName(stem + ".mkv.part")
  {
    MkvNameIff(stem + ".MKV");
    MkvNameIff(stem + ".Mkv");
    MkvNameIff(stem + ".mkv");
    var p := stem + ".mkv.part";
    assert Lower(p)[|p| - 1] == 't';
  }

  /** The candidates are exactly the `.mkv` regular files, in listing order: each kept
      entry is a candidate, each candidate is kept, and the filter distributes over
      concatenation. */
  lemma {:induction false} MkvFilesFilter(entries: seq<FileEntry>)
    ensures forall e :: e in MkvFiles(entries) <==> e in entries && IsMkvCandidate(e)
    ensures |MkvFiles(entries)| <= |entries|
  {
    if entries != [] {
      var n := |entries| - 1;
      MkvFilesFilter(entries[..n]);
      assert entries == entries[..n] + [entries[n]];
    }
  }

  lemma {:induction false} MkvFilesConcat(a: seq<FileEntry>, b: seq<FileEntry>)
    ensures MkvFiles(a + b) == MkvFiles(a) + MkvFiles(b)
    decreases |b|
  {
    if b == [] {
      assert a + b == a;
    } else {
      var b' := b[..|b| - 1];
      assert (a + b)[..|a + b| - 1] == a + b';
      MkvFilesConcat(a, b');
    }
  }

  /** Filtering a listing in two parts filters each part, keeping listing order. */
  lemma {:induction false} MovieDirsConcat(a: seq<MovieEntry>, b: seq<MovieEntry>)
    ensures MovieDirs(a + b) == MovieDirs(a) + MovieDirs(b)
    decreases |b|
  {
    if b == [] {
      assert a + b == a;
    } else {
      var b' := b[..|b| - 1];
      assert (a + b)[..|a + b| - 1] == a + b';
      MovieDirsConcat(a, b');
    }
  }

  /** The movie folders are exactly the directory entries, in listing order. */
  lemma {:induction false} MovieDirsFilter(entries: seq<MovieEntry>)
    ensures forall e :: e in MovieDirs(entries) <==> e in entries && e.isDir
    ensures |MovieDirs(entries)| <= |entries|
  {
    if entries != [] {
      var n := |entries| - 1;
      MovieDirsFilter(entries[..n]);
      assert entries == entries[..n] + [entries[n]];
    }
  }
}
