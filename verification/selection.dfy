/**
 * Choosing the commentary tracks of one file (commextract.py:233-274): the audio
 * tracks whose lower-cased name contains one of the keywords, in report order,
 * each turned into the record the extraction step reads.
 */
module Selection {
  import opened Optional
  import opened Text
  import opened Metadata
  import opened Codec
  import opened Naming

  /** The record appended to `audio_tracks` (commextract.py:268-274). */
  datatype CommentaryTrack = CommentaryTrack(
    id: Option<nat>,
    name: string,
    language: string,
    codec: string,
    extension: string)

  /** Some keyword occurs as a substring of the lower-cased track name. */
  predicate NameMatches(trackName: string, keywords: seq<string>) {
    exists k | 0 <= k < |keywords| :: Contains(Lower(trackName), keywords[k])
  }

  /** The condition under which a track is extracted. */
  predicate IsCommentaryTrack(t: Track, keywords: seq<string>) {
    IsAudio(t) && NameMatches(TrackNameOf(t), keywords)
  }

  /** The record made of a selected track: the display name, the codec segment and its extension. */
  function ToRecord(t: Track): CommentaryTrack {
    var codec := CodecSegment(CodecIdOf(t));
    CommentaryTrack(t.id, DisplayName(TrackNameOf(t), t.id), LanguageOf(t), codec, ExtensionFor(codec))
  }

  /** The records of the commentary tracks, in the order of `tracks`. */
  function SelectCommentary(tracks: seq<Track>, keywords: seq<string>): seq<CommentaryTrack>
  {
    if tracks == [] then []
    else
      var last := tracks[|tracks| - 1];
      SelectCommentary(tracks[..|tracks| - 1], keywords)
        + (if IsCommentaryTrack(last, keywords) then [ToRecord(last)] else [])
  }

  /** The `is_commentary` loop (commextract.py:245-250): stop at the first keyword found in the name. */
  method IsCommentary(nameLower: string, keywords: seq<string>) returns (found: bool)
    ensures found <==> exists k | 0 <= k < |keywords| :: Contains(nameLower, keywords[k])
  {
    found := false;
    var i := 0;
    while i < |keywords|
      invariant 0 <= i <= |keywords|
      invariant !found
      invariant forall k :: 0 <= k < i ==> !Contains(nameLower, keywords[k])
    {
      if Contains(nameLower, keywords[i]) {
        found := true;
        break;
      }
      i := i + 1;
    }
  }

  /** The track loop (commextract.py:233-274): builds `audio_tracks` by appending. */
  method SelectTracks(info: TrackInfo, keywords: seq<string>) returns (selected: seq<CommentaryTrack>)
    ensures selected == SelectCommentary(TracksOf(info), keywords)
  {
    var tracks := TracksOf(info);
    selected := [];
    var i := 0;
    while i < |tracks|
      invariant 0 <= i <= |tracks|
      invariant selected == SelectCommentary(tracks[..i], keywords)
    {
      var track := tracks[i];
      if track.kind == Some("audio") {
        var trackName := TrackNameOf(track);
        var language := LanguageOf(track);
        var codec := CodecSegment(CodecIdOf(track));
        var isCommentary := IsCommentary(Lower(trackName), keywords);
        if isCommentary {
          var ext := ChooseExtension(codec);
          selected := selected + [CommentaryTrack(track.id, DisplayName(trackName, track.id), language, codec, ext)];
        }
      }
      assert tracks[..i + 1][..i] == tracks[..i];
      i := i + 1;
    }
    assert tracks[..|tracks|] == tracks;
  }

  /** Selection distributes over concatenation of track lists. */
  lemma {:induction false} SelectConcat(a: seq<Track>, b: seq<Track>, keywords: seq<string>)
    ensures SelectCommentary(a + b, keywords) == SelectCommentary(a, keywords) + SelectCommentary(b, keywords)
    decreases |b|
  {
    if b == [] {
      assert a + b == a;
    } else {
      var b' := b[..|b| - 1];
      assert (a + b)[..|a + b| - 1] == a + b';
      assert (a + b)[|a + b| - 1] == b[|b| - 1];
      SelectConcat(a, b', keywords);
    }
  }

  /** The positions of the commentary tracks, in increasing order. */
  function CommentaryIndices(tracks: seq<Track>, keywords: seq<string>): seq<nat>
  {
    if tracks == [] then []
    else
      var n := |tracks| - 1;
      CommentaryIndices(tracks[..n], keywords) + (if IsCommentaryTrack(tracks[n], keywords) then [n] else [])
  }

  predicate StrictlyIncreasing(s: seq<nat>) {
    forall i, j :: 0 <= i < j < |s| ==> s[i] < s[j]
  }

  /** Every extension the table can give is usable in a file name. */
  lemma ExtensionSafe(codec: string)
    ensures IsSafeName(ExtensionFor(codec))
  {
    ExtensionKnown(codec);
  }

  /** Every selected record carries a safe extension. */
  lemma SelectedExtensionsSafe(tracks: seq<Track>, keywords: seq<string>)
    ensures forall j :: 0 <= j < |SelectCommentary(tracks, keywords)| ==>
              IsSafeName(SelectCommentary(tracks, keywords)[j].extension)
  {
    SelectionIsOrderedSubsequence(tracks, keywords);
    var sel := SelectCommentary(tracks, keywords);
    forall j | 0 <= j < |sel| ensures IsSafeName(sel[j].extension) {
      ExtensionSafe(sel[j].codec);
    }
  }

  /** The commentary positions increase, lie inside `tracks`, and are exactly the
      positions of audio tracks with a matching name. */
  lemma {:induction false} CommentaryIndicesShape(tracks: seq<Track>, keywords: seq<string>)
    ensures StrictlyIncreasing(CommentaryIndices(tracks, keywords))
    ensures forall j :: 0 <= j < |CommentaryIndices(tracks, keywords)| ==>
              CommentaryIndices(tracks, keywords)[j] < |tracks|
    ensures forall i :: 0 <= i < |tracks| ==>
              (IsCommentaryTrack(tracks[i], keywords) <==> i in CommentaryIndices(tracks, keywords))
  {
    if tracks != [] {
      var n := |tracks| - 1;
      var front := tracks[..n];
      CommentaryIndicesShape(front, keywords);
      var idx0, idx := CommentaryIndices(front, keywords), CommentaryIndices(tracks, keywords);
      assert idx == idx0 + (if IsCommentaryTrack(tracks[n], keywords) then [n] else []);
      forall i, j | 0 <= i < j < |idx| ensures idx[i] < idx[j] {
        assert idx[i] == idx0[i];
        if j < |idx0| {
          assert idx[j] == idx0[j];
        }
      }
      forall i | 0 <= i < |tracks| ensures IsCommentaryTrack(tracks[i], keywords) <==> i in idx {
        if i < n {
          assert front[i] == tracks[i];
          assert i in idx <==> i in idx0;
        }
      }
    }
  }

  /** The selection is exactly the commentary tracks, as an ordered subsequence:
      the j-th record is made of the track at the j-th commentary position, those
      positions increase, and a position is among them iff its track is audio with a
      matching name. So no video, subtitle or non-matching track is ever selected,
      no commentary track is missed, and the report's order is kept. */
  lemma {:induction false} SelectionIsOrderedSubsequence(tracks: seq<Track>, keywords: seq<string>)
    ensures |CommentaryIndices(tracks, keywords)| == |SelectCommentary(tracks, keywords)|
    ensures StrictlyIncreasing(CommentaryIndices(tracks, keywords))
    ensures forall j :: 0 <= j < |CommentaryIndices(tracks, keywords)| ==>
              CommentaryIndices(tracks, keywords)[j] < |tracks|
              && SelectCommentary(tracks, keywords)[j] == ToRecord(tracks[CommentaryIndices(tracks, keywords)[j]])
    ensures forall i :: 0 <= i < |tracks| ==>
              (IsCommentaryTrack(tracks[i], keywords) <==> i in CommentaryIndices(tracks, keywords))
  {
    CommentaryIndicesShape(tracks, keywords);
    if tracks != [] {
      var n := |tracks| - 1;
      var front := tracks[..n];
      SelectionIsOrderedSubsequence(front, keywords);
      var idx0, sel0 := CommentaryIndices(front, keywords), SelectCommentary(front, keywords);
      var idx, sel := CommentaryIndices(tracks, keywords), SelectCommentary(tracks, keywords);
      var c := IsCommentaryTrack(tracks[n], keywords);
      assert idx == idx0 + (if c then [n] else []);
      assert sel == sel0 + (if c then [ToRecord(tracks[n])] else []);
      forall j | 0 <= j < |idx| ensures sel[j] == ToRecord(tracks[idx[j]]) {
        if j < |idx0| {
          assert idx[j] == idx0[j] && sel[j] == sel0[j];
          assert front[idx0[j]] == tracks[idx0[j]];
        }
      }
    }
  }

  /** A record is selected iff some commentary track produces it. */
  lemma SelectedIff(tracks: seq<Track>, keywords: seq<string>, r: CommentaryTrack)
    ensures r in SelectCommentary(tracks, keywords)
        <==> exists i | 0 <= i < |tracks| :: IsCommentaryTrack(tracks[i], keywords) && r == ToRecord(tracks[i])
  {
    SelectionIsOrderedSubsequence(tracks, keywords);
    var idx := CommentaryIndices(tracks, keywords);
    var sel := SelectCommentary(tracks, keywords);
    if r in sel {
      var j :| 0 <= j < |sel| && sel[j] == r;
      assert IsCommentaryTrack(tracks[idx[j]], keywords);
    }
    if exists i | 0 <= i < |tracks| :: IsCommentaryTrack(tracks[i], keywords) && r == ToRecord(tracks[i]) {
      var i :| 0 <= i < |tracks| && IsCommentaryTrack(tracks[i], keywords) && r == ToRecord(tracks[i]);
      var j :| 0 <= j < |idx| && idx[j] == i;
      assert sel[j] == r;
    }
  }

  /** An empty keyword (from an empty field or a stray comma) occurs in every name,
      so it selects every audio track, named or not. */
  lemma EmptyKeywordSelectsAllAudio(t: Track, keywords: seq<string>)
    requires "" in keywords
    ensures IsCommentaryTrack(t, keywords) <==> IsAudio(t)
  {
    var k :| 0 <= k < |keywords| && keywords[k] == "";
    ContainsEmpty(Lower(TrackNameOf(t)), "");
  }

  /** An unnamed track is selected only through an empty keyword, so the
      `Commentary Track <id>` name is only ever given when one is present. */
  lemma UnnamedNeedsEmptyKeyword(t: Track, keywords: seq<string>)
    requires IsCommentaryTrack(t, keywords)
    ensures TrackNameOf(t) == "" ==> "" in keywords
    ensures "" !in keywords ==> ToRecord(t).name == TrackNameOf(t)
  {
    if TrackNameOf(t) == "" {
      var k :| 0 <= k < |keywords| && Contains(Lower(""), keywords[k]);
      ContainsEmpty("", keywords[k]);
    }
  }

  /** A report without a `tracks` key selects nothing. */
  lemma NoTracksSelectsNothing(info: TrackInfo, keywords: seq<string>)
    requires info.tracks.None?
    ensures SelectCommentary(TracksOf(info), keywords) == []
  {
  }
}
