/** The records the pages pass around: the audio analysis of a track, a track
    as the backend returns it, and the `trackData` record the builder pages
    store for each table row. */
module Tracks {
  import opened Seqs

  /** The audio-feature record the music service supplies for a track. Energy,
      valence and danceability lie in [0, 1] in practice, tempo is in BPM, key is
      a pitch class (-1 when none was detected) and mode is 1 for major, 0 for minor. */
  datatype AudioFeatures = AudioFeatures(
    danceability: real,
    energy: real,
    valence: real,
    tempo: real,
    key: int,
    mode: int,
    timeSignature: int,
    uri: Option<string>)

  datatype Artist = Artist(name: string)

  datatype Album = Album(name: string)

  /** A track as `/playlist-tracks` returns it; `audioFeatures` is `None` when the
      service returned `null` for it. */
  datatype SpotifyTrack = SpotifyTrack(
    name: string,
    artists: seq<Artist>,
    album: Album,
    durationMs: int,
    uri: Option<string>,
    audioFeatures: Option<AudioFeatures>)

  /** The `trackData` record stored in a row's `data-track` attribute and later in
      `localStorage`. The builders only build it after reading the track's features,
      so `audioFeatures` is always present. The last three fields are `None` where a
      builder does not set them. */
  datatype TrackData = TrackData(
    name: string,
    artists: seq<string>,
    album: string,
    duration: int,
    audioFeatures: AudioFeatures,
    uri: Option<string>,
    keyName: Option<string>,
    modeName: Option<string>,
    timeSignature: Option<int>)

  /** An inclusive range `min <= x <= max`. */
  datatype Band = Band(min: real, max: real)

  predicate InBand(x: real, b: Band) {
    b.min <= x <= b.max
  }

  /** What a change of a curve selector leads to: the list is rendered with the
      given rows, or the handler stops with a JavaScript TypeError. */
  datatype Outcome =
    | Rendered(rows: seq<TrackData>)
    | TypeError
}
