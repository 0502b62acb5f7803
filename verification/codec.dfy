/**
 * The choice of an output file extension from a Matroska CodecID
 * (commextract.py:242, 254-266).
 */
module Codec {
  import opened Text

  /** `codec_id.split("/")[-1]`: the segment after the last slash. */
  function CodecSegment(codecId: string): string {
    LastPiece(codecId, '/')
  }

  /** The segment is a slash-free suffix of the ID, and the whole ID when it has no slash. */
  lemma CodecSegmentShape(codecId: string)
    ensures '/' !in CodecSegment(codecId)
    ensures EndsWith(codecId, CodecSegment(codecId))
    ensures '/' !in codecId ==> CodecSegment(codecId) == codecId
  {
    LastPieceSuffix(codecId, '/');
    LastPieceFree(codecId, '/');
  }

  /** The extension for a codec segment: the first table prefix that starts it wins,
      "mka" otherwise. */
  function ExtensionFor(codec: string): string {
    Lookup(ExtensionTable, codec, FallbackExtension)
  }

  /** The `ext` assignments (commextract.py:254-266): "mka" unless a test of the
      `elif` chain matches. */
  method ChooseExtension(codec: string) returns (ext: string)
    ensures ext == ExtensionFor(codec)
  {
    ext := "mka";
    if StartsWith(codec, "A_AC3") {
      ext := "ac3";
    } else if StartsWith(codec, "A_AAC") {
      ext := "aac";
    } else if StartsWith(codec, "A_MP3") {
      ext := "mp3";
    } else if StartsWith(codec, "A_DTS") {
      ext := "dts";
    } else if StartsWith(codec, "A_PCM") {
      ext := "wav";
    } else if StartsWith(codec, "A_FLAC") {
      ext := "flac";
    }
    ExtensionIsChain(codec);
  }

  const FallbackExtension: string := "mka"

  /** Every codec gets one of the seven extensions. */
  lemma ExtensionKnown(codec: string)
    ensures ExtensionFor(codec) in KnownExtensions
  {
    ExtensionIsChain(codec);
  }

  /** The prefix table, in the order the code tests it. */
  const ExtensionTable: seq<(string, string)> := [
    ("A_AC3", "ac3"), ("A_AAC", "aac"), ("A_MP3", "mp3"),
    ("A_DTS", "dts"), ("A_PCM", "wav"), ("A_FLAC", "flac")]

  const KnownExtensions: set<string> := {"ac3", "aac", "mp3", "dts", "wav", "flac", "mka"}

  /** First-match lookup in a prefix table, with a fallback. */
  function Lookup(table: seq<(string, string)>, codec: string, fallback: string): string
  {
    if table == [] then fallback
    else if StartsWith(codec, table[0].0) then table[0].1
    else Lookup(table[1..], codec, fallback)
  }

  /** The table lookup is the chain of tests, in the code's order. */
  lemma ExtensionIsChain(codec: string)
    ensures ExtensionFor(codec) ==
      if StartsWith(codec, "A_AC3") then "ac3"
      else if StartsWith(codec, "A_AAC") then "aac"
      else if StartsWith(codec, "A_MP3") then "mp3"
      else if StartsWith(codec, "A_DTS") then "dts"
      else if StartsWith(codec, "A_PCM") then "wav"
      else if StartsWith(codec, "A_FLAC") then "flac"
      else FallbackExtension
  {
    var t, f := ExtensionTable, FallbackExtension;
    assert t[6..] == [];
    assert t[5..][0] == ("A_FLAC", "flac") && t[5..][1..] == t[6..];
    assert t[4..][0] == ("A_PCM", "wav") && t[4..][1..] == t[5..];
    assert t[3..][0] == ("A_DTS", "dts") && t[3..][1..] == t[4..];
    assert t[2..][0] == ("A_MP3", "mp3") && t[2..][1..] == t[3..];
    assert t[1..][0] == ("A_AAC", "aac") && t[1..][1..] == t[2..];
    assert t[0] == ("A_AC3", "ac3");
    assert Lookup(t[6..], codec, f) == f;
    assert Lookup(t[5..], codec, f) == if StartsWith(codec, "A_FLAC") then "flac" else f;
    assert Lookup(t[4..], codec, f) == if StartsWith(codec, "A_PCM") then "wav" else Lookup(t[5..], codec, f);
    assert Lookup(t[3..], codec, f) == if StartsWith(codec, "A_DTS") then "dts" else Lookup(t[4..], codec, f);
    assert Lookup(t[2..], codec, f) == if StartsWith(codec, "A_MP3") then "mp3" else Lookup(t[3..], codec, f);
    assert Lookup(t[1..], codec, f) == if StartsWith(codec, "A_AAC") then "aac" else Lookup(t[2..], codec, f);
  }

  /** A string starting with `p` has `p`'s characters in front. */
  lemma StartsWithAt(codec: string, p: string, k: nat)
    requires StartsWith(codec, p) && k < |p|
    ensures codec[k] == p[k]
  {
    assert codec[..|p|][k] == codec[k];
  }

  /** No table prefix starts another, so the order of the tests does not matter:
      a codec starting with a table prefix gets that prefix's extension. */
  lemma PrefixDecides(codec: string)
    ensures StartsWith(codec, "A_AC3") ==> ExtensionFor(codec) == "ac3"
    ensures StartsWith(codec, "A_AAC") ==> ExtensionFor(codec) == "aac"
    ensures StartsWith(codec, "A_MP3") ==> ExtensionFor(codec) == "mp3"
    ensures StartsWith(codec, "A_DTS") ==> ExtensionFor(codec) == "dts"
    ensures StartsWith(codec, "A_PCM") ==> ExtensionFor(codec) == "wav"
    ensures StartsWith(codec, "A_FLAC") ==> ExtensionFor(codec) == "flac"
  {
    ExtensionIsChain(codec);
    if StartsWith(codec, "A_AAC") {
      StartsWithAt(codec, "A_AAC", 3);
    }
    if StartsWith(codec, "A_MP3") || StartsWith(codec, "A_DTS") || StartsWith(codec, "A_PCM") || StartsWith(codec, "A_FLAC") {
      assert |codec| >= 5;
      if StartsWith(codec, "A_AC3") { StartsWithAt(codec, "A_AC3", 2); }
      if StartsWith(codec, "A_AAC") { StartsWithAt(codec, "A_AAC", 2); }
      if StartsWith(codec, "A_MP3") { StartsWithAt(codec, "A_MP3", 2); }
      if StartsWith(codec, "A_DTS") { StartsWithAt(codec, "A_DTS", 2); }
      if StartsWith(codec, "A_PCM") { StartsWithAt(codec, "A_PCM", 2); }
      if StartsWith(codec, "A_FLAC") { StartsWithAt(codec, "A_FLAC", 2); }
    }
  }

  /** The fallback is chosen exactly when no table prefix starts the codec. */
  lemma FallbackIffNoPrefix(codec: string)
    ensures ExtensionFor(codec) == FallbackExtension
        <==> forall i :: 0 <= i < |ExtensionTable| ==> !StartsWith(codec, ExtensionTable[i].0)
  {
    ExtensionIsChain(codec);
    var t := ExtensionTable;
    assert t[0].0 == "A_AC3" && t[1].0 == "A_AAC" && t[2].0 == "A_MP3";
    assert t[3].0 == "A_DTS" && t[4].0 == "A_PCM" && t[5].0 == "A_FLAC";
    if ExtensionFor(codec) == FallbackExtension {
      forall i | 0 <= i < |t| ensures !StartsWith(codec, t[i].0) {
        if i == 0 {} else if i == 1 {} else if i == 2 {} else if i == 3 {} else if i == 4 {} else {}
      }
    }
  }

  /** Because the table is applied to the segment after the last slash, a codec ID
      of the form `<family>/<...>/<last>` is judged by `<last>` alone. */
  lemma SlashedIdsUseLastSegment(family: string, last: string)
    requires '/' !in last
    ensures CodecSegment(family + "/" + last) == last
  {
    var s := family + "/" + last;
    var seg := CodecSegment(s);
    LastPieceSuffix(s, '/');
    LastPieceFree(s, '/');
    assert s[|s| - |last| - 1] == '/';
    assert s[|s| - |last|..] == last;
  }

  /** A slash at index `j` bounds the segment to what follows it. */
  lemma SegmentAfterSlash(codecId: string, j: nat)
    requires j < |codecId| && codecId[j] == '/'
    ensures |CodecSegment(codecId)| < |codecId| - j
  {
    CodecSegmentShape(codecId);
  }

  /** Every table prefix has five or six characters, so a shorter codec gets the fallback. */
  lemma ShortCodecFallback(codec: string)
    requires |codec| < 5
    ensures ExtensionFor(codec) == FallbackExtension
  {
    ExtensionIsChain(codec);
  }

  /** Matroska's PCM IDs (`A_PCM/INT/LIT`, `A_PCM/INT/BIG`, `A_PCM/FLOAT/IEEE`), the
      long AAC form `A_AAC/MPEG4/LC` and the MP3 ID `A_MPEG/L3` get "mka": the table
      only ever sees the short segment after the last slash. */
  lemma PcmIdsGetFallback(codecId: string)
    requires codecId in {"A_PCM/INT/LIT", "A_PCM/INT/BIG", "A_PCM/FLOAT/IEEE", "A_AAC/MPEG4/LC", "A_MPEG/L3"}
    ensures ExtensionFor(CodecSegment(codecId)) == FallbackExtension
  {
    var j: nat :=
      if codecId == "A_PCM/INT/LIT" || codecId == "A_PCM/INT/BIG" then 9
      else if codecId == "A_MPEG/L3" then 6
      else 11;
    assert codecId[j] == '/';
    SegmentAfterSlash(codecId, j);
    ShortCodecFallback(CodecSegment(codecId));
  }

  /** A last segment that does not start with `A` matches no table prefix, so the
      Dolby Digital and DTS variants `A_AC3/BSID9`, `A_AC3/BSID10`, `A_DTS/EXPRESS`
      and `A_DTS/LOSSLESS` get "mka" too. */
  lemma SuffixedIdsGetFallback(family: string, last: string)
    requires '/' !in last && (last == [] || last[0] != 'A')
    ensures ExtensionFor(CodecSegment(family + "/" + last)) == FallbackExtension
  {
    SlashedIdsUseLastSegment(family, last);
    ExtensionIsChain(last);
    if |last| >= 5 {
      assert last[..5][0] == last[0];
    }
  }

  /** IDs without a slash are looked up whole. */
  lemma PlainIdsGetTheirExtension(codecId: string)
    requires codecId in {"A_AC3", "A_AAC", "A_MP3", "A_DTS", "A_FLAC"}
    ensures ExtensionFor(CodecSegment(codecId)) == ExtensionFor(codecId) != FallbackExtension
  {
    assert CodecSegment(codecId) == codecId by {
      assert '/' !in codecId;
      CodecSegmentShape(codecId);
    }
    var k := if codecId == "A_AC3" then 0 else if codecId == "A_AAC" then 1
      else if codecId == "A_MP3" then 2 else if codecId == "A_DTS" then 3 else 5;
    assert codecId == ExtensionTable[k].0;
    PrefixOwnExtension(k);
  }

  /** Each table prefix, taken as a codec, gets its own extension. */
  lemma PrefixOwnExtension(k: nat)
    requires k < |ExtensionTable|
    ensures ExtensionFor(ExtensionTable[k].0) == ExtensionTable[k].1 != FallbackExtension
  {
    var p := ExtensionTable[k].0;
    assert StartsWith(p, p) by {
      assert p[..|p|] == p;
    }
    PrefixDecides(p);
  }
}
