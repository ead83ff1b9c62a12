/** The playlist-builder pages: fetched tracks are shown as table rows when their
    danceability, tempo, valence (the "mood" slider) and energy lie in the four
    slider ranges, each row carrying a `trackData` projection of the track; the
    create button collects every row's `trackData` in table order. */
module TrackFilter {
  import opened Seqs
  import opened Tracks
  import opened Utils

  /** The four slider ranges, as numbers. */
  datatype SliderBounds = SliderBounds(danceability: Band, tempo: Band, mood: Band, energy: Band)

  /** `isTrackMatchingFilters`: each feature lies in its inclusive range. */
  predicate MatchesFilters(danceability: real, tempo: real, valence: real, energy: real, bounds: SliderBounds) {
    && (danceability >= bounds.danceability.min && danceability <= bounds.danceability.max)
    && (tempo >= bounds.tempo.min && tempo <= bounds.tempo.max)
    && (valence >= bounds.mood.min && valence <= bounds.mood.max)
    && (energy >= bounds.energy.min && energy <= bounds.energy.max)
  }

  /** The start positions of the sliders: [0, 1] for danceability, mood and
      energy, [60, 180] BPM for tempo. */
  const DefaultBounds: SliderBounds :=
    SliderBounds(Band(0.0, 1.0), Band(60.0, 180.0), Band(0.0, 1.0), Band(0.0, 1.0))

  /** Both ends of every range admit the value equal to them. */
  lemma MatchesFiltersInclusive(bounds: SliderBounds)
    requires bounds.danceability.min <= bounds.danceability.max && bounds.tempo.min <= bounds.tempo.max
    requires bounds.mood.min <= bounds.mood.max && bounds.energy.min <= bounds.energy.max
    ensures MatchesFilters(bounds.danceability.min, bounds.tempo.min, bounds.mood.min, bounds.energy.min, bounds)
    ensures MatchesFilters(bounds.danceability.max, bounds.tempo.max, bounds.mood.max, bounds.energy.max, bounds)
  {
  }

  /** Every value of `inner` lies in `outer`. */
  predicate Within(inner: Band, outer: Band) {
    outer.min <= inner.min && inner.max <= outer.max
  }

  /** Dragging slider handles outwards never hides a shown track: a track that
      matches the narrower ranges matches the wider ones. */
  lemma MatchesFiltersWiden(danceability: real, tempo: real, valence: real, energy: real,
                            narrow: SliderBounds, wide: SliderBounds)
    requires Within(narrow.danceability, wide.danceability) && Within(narrow.tempo, wide.tempo)
    requires Within(narrow.mood, wide.mood) && Within(narrow.energy, wide.energy)
    ensures MatchesFilters(danceability, tempo, valence, energy, narrow) ==>
      MatchesFilters(danceability, tempo, valence, energy, wide)
  {
  }

  /** Under the start positions the tempo range alone rejects every track slower
      than 60 or faster than 180 BPM, and admits every track whose other three
      features are in [0, 1]. */
  lemma DefaultBoundsTempo(danceability: real, tempo: real, valence: real, energy: real)
    ensures tempo < 60.0 || tempo > 180.0 ==> !MatchesFilters(danceability, tempo, valence, energy, DefaultBounds)
    ensures 0.0 <= danceability <= 1.0 && 0.0 <= valence <= 1.0 && 0.0 <= energy <= 1.0 && 60.0 <= tempo <= 180.0
      ==> MatchesFilters(danceability, tempo, valence, energy, DefaultBounds)
  {
  }

  /** The inline test of `initialization.js`, which compares each feature with the
      slider's value string; JavaScript converts such a string to the number it
      spells, so the comparisons are numeric. */
  predicate InlineRangeTest(danceability: real, tempo: real, valence: real, energy: real,
                            danceabilityRange: seq<real>, tempoRange: seq<real>, moodRange: seq<real>, energyRange: seq<real>)
    requires |danceabilityRange| == |tempoRange| == |moodRange| == |energyRange| == 2
  {
    danceability >= danceabilityRange[0] && danceability <= danceabilityRange[1] &&
    tempo >= tempoRange[0] && tempo <= tempoRange[1] &&
    valence >= moodRange[0] && valence <= moodRange[1] &&
    energy >= energyRange[0] && energy <= energyRange[1]
  }

  /** The inline copy accepts exactly the tracks `isTrackMatchingFilters` accepts. */
  lemma InlineRangeTestIsMatchesFilters(danceability: real, tempo: real, valence: real, energy: real, bounds: SliderBounds)
    ensures InlineRangeTest(danceability, tempo, valence, energy,
      [bounds.danceability.min, bounds.danceability.max], [bounds.tempo.min, bounds.tempo.max],
      [bounds.mood.min, bounds.mood.max], [bounds.energy.min, bounds.energy.max])
      <==> MatchesFilters(danceability, tempo, valence, energy, bounds)
  {
  }

  /** How a page builds `trackData`: `Plain` (playlist_builder.js) copies name,
      artist names, album name, duration, features and URI; `Annotated`
      (track_handling.js, initialization.js) adds the key name, the mode name and
      the time signature. */
  datatype Projection = Plain | Annotated

  /** The `trackData` record built for a track whose features were read. */
  function ProjectTrack(track: SpotifyTrack, features: AudioFeatures, projection: Projection): (row: TrackData)
    ensures row.name == track.name && row.album == track.album.name && row.duration == track.durationMs
    ensures |row.artists| == |track.artists| &&
      forall i :: 0 <= i < |track.artists| ==> row.artists[i] == track.artists[i].name
    ensures row.audioFeatures == features && row.uri == track.uri
    ensures projection.Plain? <==> row.keyName.None?
    ensures projection.Plain? ==> row.modeName.None? && row.timeSignature.None?
    ensures projection.Annotated? ==>
      row.modeName == Some(ModeName(features.mode)) && row.timeSignature == Some(features.timeSignature)
    ensures projection.Annotated? && 0 <= features.key < 12 ==> KeyOfName(row.keyName.value) == Some(features.key)
    ensures projection.Annotated? && !(0 <= features.key < 12) ==> row.keyName == Some("Unknown")
  {
    var artists := seq(|track.artists|, i requires 0 <= i < |track.artists| => track.artists[i].name);
    match projection
    case Plain =>
      TrackData(track.name, artists, track.album.name, track.durationMs, features, track.uri, None, None, None)
    case Annotated =>
      KeyNameReadsBack(features.key);
      TrackData(track.name, artists, track.album.name, track.durationMs, features, track.uri,
        Some(KeyName(features.key)), Some(ModeName(features.mode)), Some(features.timeSignature))
  }

  lemma KeyNameReadsBack(key: int)
    ensures 0 <= key < 12 ==> KeyOfName(KeyName(key)) == Some(key)
  {
    if 0 <= key < 12 {
      KeyNameRoundTrip(key);
    }
  }

  /** Holds of the tracks whose features lie in the slider ranges. */
  function TrackMatches(bounds: SliderBounds): SpotifyTrack -> bool {
    (t: SpotifyTrack) =>
      t.audioFeatures.Some? &&
      var f := t.audioFeatures.value;
      MatchesFilters(f.danceability, f.tempo, f.valence, f.energy, bounds)
  }

  /** The projections of `tracks`, all of which carry features. */
  function ProjectAll(tracks: seq<SpotifyTrack>, projection: Projection): (rows: seq<TrackData>)
    requires forall t :: t in tracks ==> t.audioFeatures.Some?
    ensures |rows| == |tracks|
  {
    if tracks == [] then []
    else
      var n := |tracks| - 1;
      ProjectAll(tracks[..n], projection) + [ProjectTrack(tracks[n], tracks[n].audioFeatures.value, projection)]
  }

  /** The rows a complete pass over `data` appends: the matching tracks, projected, in order. */
  function Rows(data: seq<SpotifyTrack>, bounds: SliderBounds, projection: Projection): seq<TrackData> {
    FilterMembers(data, TrackMatches(bounds));
    ProjectAll(Filter(data, TrackMatches(bounds)), projection)
  }

  /** The position of the first track without features, or `|data|` when there is none. */
  function FirstMissing(data: seq<SpotifyTrack>): (k: nat)
    ensures k <= |data|
    ensures forall i :: 0 <= i < k ==> data[i].audioFeatures.Some?
    ensures k < |data| ==> data[k].audioFeatures.None?
  {
    if data == [] then 0
    else if data[0].audioFeatures.None? then 0
    else 1 + FirstMissing(data[1..])
  }

  /** The `forEach` of `loadTracks`: append a row for each matching track. Reading
      the features of a track that has none throws, which ends the pass and leaves
      the rows appended so far in the table; `failed` reports that. */
  method LoadRows(data: seq<SpotifyTrack>, bounds: SliderBounds, projection: Projection)
    returns (rows: seq<TrackData>, failed: bool)
    ensures failed <==> exists i :: 0 <= i < |data| && data[i].audioFeatures.None?
    ensures rows == Rows(data[..FirstMissing(data)], bounds, projection)
  {
    rows := [];
    failed := false;
    var i := 0;
    while i < |data|
      invariant 0 <= i <= FirstMissing(data)
      invariant rows == Rows(data[..i], bounds, projection)
      invariant !failed
    {
      var track := data[i];
      if track.audioFeatures.None? {
        failed := true;
        assert FirstMissing(data) == i;
        return;
      }
      var f := track.audioFeatures.value;
      RowsStep(data, i, bounds, projection);
      if MatchesFilters(f.danceability, f.tempo, f.valence, f.energy, bounds) {
        rows := rows + [ProjectTrack(track, f, projection)];
      }
      i := i + 1;
    }
    assert FirstMissing(data) == |data| && data[..i] == data;
  }

  /** One pass of the `forEach` of `loadTracks` over a track with features. */
  lemma RowsStep(data: seq<SpotifyTrack>, i: nat, bounds: SliderBounds, projection: Projection)
    requires i < |data| && data[i].audioFeatures.Some?
    ensures Rows(data[..i + 1], bounds, projection) == Rows(data[..i], bounds, projection)
      + (if TrackMatches(bounds)(data[i]) then [ProjectTrack(data[i], data[i].audioFeatures.value, projection)] else [])
  {
    assert data[..i + 1] == data[..i] + [data[i]];
    RowsAppend(data[..i], data[i], bounds, projection);
  }

  lemma RowsAppend(data: seq<SpotifyTrack>, track: SpotifyTrack, bounds: SliderBounds, projection: Projection)
    requires track.audioFeatures.Some?
    ensures Rows(data + [track], bounds, projection) == Rows(data, bounds, projection)
      + (if TrackMatches(bounds)(track) then [ProjectTrack(track, track.audioFeatures.value, projection)] else [])
  {
    var p := TrackMatches(bounds);
    var all := data + [track];
    assert all[..|all| - 1] == data && all[|all| - 1] == track;
    FilterMembers(data, p);
    FilterMembers(all, p);
    var kept := Filter(data, p);
    assert Filter(all, p) == kept + (if p(track) then [track] else []);
    assert Rows(data, bounds, projection) == ProjectAll(kept, projection);
    if p(track) {
      var more := kept + [track];
      assert Filter(all, p) == more;
      assert more[..|more| - 1] == kept && more[|more| - 1] == track;
      assert Rows(all, bounds, projection) == ProjectAll(more, projection) == ProjectAll(kept, projection)
        + [ProjectTrack(track, track.audioFeatures.value, projection)];
    } else {
      assert Filter(all, p) == kept;
      assert Rows(all, bounds, projection) == ProjectAll(kept, projection);
    }
  }

  /** Every row shows a track that matches the sliders, and the rows follow the
      order of the fetched tracks. */
  lemma RowsMatchInOrder(data: seq<SpotifyTrack>, bounds: SliderBounds, projection: Projection)
    ensures forall r :: r in Rows(data, bounds, projection) ==>
      MatchesFilters(r.audioFeatures.danceability, r.audioFeatures.tempo, r.audioFeatures.valence,
        r.audioFeatures.energy, bounds)
    ensures IsSubsequence(Filter(data, TrackMatches(bounds)), data)
  {
    var kept := Filter(data, TrackMatches(bounds));
    FilterMembers(data, TrackMatches(bounds));
    FilterIsSubsequence(data, TrackMatches(bounds));
    ProjectAllMembers(kept, projection);
  }

  lemma {:induction false} ProjectAllMembers(tracks: seq<SpotifyTrack>, projection: Projection)
    requires forall t :: t in tracks ==> t.audioFeatures.Some?
    ensures forall r :: r in ProjectAll(tracks, projection) ==>
      exists t :: t in tracks && r.audioFeatures == t.audioFeatures.value
  {
    if tracks != [] {
      var n := |tracks| - 1;
      ProjectAllMembers(tracks[..n], projection);
    }
  }

  /** When every fetched track has features, the table shows one row per matching
      track and none fails. */
  lemma RowsCompleteWhenAnalysed(data: seq<SpotifyTrack>, bounds: SliderBounds, projection: Projection)
    requires forall i :: 0 <= i < |data| ==> data[i].audioFeatures.Some?
    ensures FirstMissing(data) == |data| && data[..FirstMissing(data)] == data
    ensures |Rows(data, bounds, projection)| == |Filter(data, TrackMatches(bounds))|
  {
  }

  /** The create-playlist handler: each row's `trackData`, read back from its
      attribute, in table order. Encoding and decoding the attribute is taken to
      give back the same record. */
  method CollectSelectedTracks(tableRows: seq<TrackData>) returns (selectedTracks: seq<TrackData>)
    ensures selectedTracks == tableRows
  {
    selectedTracks := [];
    for i := 0 to |tableRows|
      invariant selectedTracks == tableRows[..i]
    {
      assert tableRows[..i + 1] == tableRows[..i] + [tableRows[i]];
      selectedTracks := selectedTracks + [tableRows[i]];
    }
    assert tableRows[..|tableRows|] == tableRows;
  }
}
