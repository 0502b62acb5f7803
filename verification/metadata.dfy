/**
 * The part of `mkvmerge -J`'s report the extractor reads, as a typed record
 * (commextract.py:234-242). Every field the code reads with `.get(key, default)`
 * is optional here; `None` means the key is absent.
 */
module Metadata {
  import opened Optional

  /** The `properties` object of one track. */
  datatype Properties = Properties(
    trackName: Option<string>,
    language: Option<string>,
    codecId: Option<string>)

  /** One entry of `tracks`: its `type` ("video", "audio", "subtitles", ...), `id` and `properties`. */
  datatype Track = Track(kind: Option<string>, id: Option<nat>, properties: Option<Properties>)

  /** The whole report; only `tracks` is read. */
  datatype TrackInfo = TrackInfo(tracks: Option<seq<Track>>)

  /** Why querying a file's metadata failed (commextract.py:212-230). */
  datatype ProbeFailure =
    | ExitStatus      // `mkvmerge` exited with a non-zero status
    | EmptyOutput     // it printed nothing
    | MalformedJson   // what it printed is not JSON
    | OtherFailure    // any other exception while running it

  /** The outcome of querying one file. */
  datatype Probe = Parsed(info: TrackInfo) | ProbeFailed(failure: ProbeFailure)

  const NoProperties := Properties(None, None, None)

  /** `track_info.get("tracks", [])`. */
  function TracksOf(info: TrackInfo): seq<Track> {
    info.tracks.GetOr([])
  }

  /** `track.get("properties", {})`. */
  function PropertiesOf(t: Track): Properties {
    t.properties.GetOr(NoProperties)
  }

  /** `properties.get("track_name", "")`. */
  function TrackNameOf(t: Track): string {
    PropertiesOf(t).trackName.GetOr("")
  }

  /** `properties.get("language", "")`. */
  function LanguageOf(t: Track): string {
    PropertiesOf(t).language.GetOr("")
  }

  /** `properties.get("codec_id", "")`. */
  function CodecIdOf(t: Track): string {
    PropertiesOf(t).codecId.GetOr("")
  }

  /** `track.get("type") == "audio"`: exactly the string "audio"; an absent type is not audio. */
  predicate IsAudio(t: Track) {
    t.kind == Some("audio")
  }

  /** Absent keys read as the documented defaults. */
  lemma AbsentFieldsDefault(t: Track, info: TrackInfo)
    ensures info.tracks.None? ==> TracksOf(info) == []
    ensures t.properties.None? ==> TrackNameOf(t) == "" && LanguageOf(t) == "" && CodecIdOf(t) == ""
    ensures t.kind.None? ==> !IsAudio(t)
  {
  }
}
