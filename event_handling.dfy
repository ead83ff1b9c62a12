/** The curve selector of the playlist page: extract the tracks' metrics, keep
    the tracks inside the named curve's bands, score each kept track against the
    curve point at its position (feature gaps plus a harmonic term) and show the
    tracks in ascending score order. */
module EventHandling {
  import opened Seqs
  import opened StableSort
  import opened Tracks

  /** The seven numbers read from a track's audio features. */
  datatype Metrics = Metrics(
    energy: real,
    valence: real,
    tempo: real,
    danceability: real,
    key: int,
    mode: int,
    timeSignature: int)

  /** One target point of a curve. */
  datatype CurvePoint = CurvePoint(energy: real, valence: real, tempo: real, key: int, mode: int)

  /** The inclusive bands a named curve admits. */
  datatype Thresholds = Thresholds(energy: Band, valence: Band, tempo: Band, danceability: Band)

  /** `track.audio_features || {}` and then `field || 0` for each metric: the
      feature values, or all zeros when the track has no features. */
  function ExtractMetrics(features: Option<AudioFeatures>): (m: Metrics)
    ensures features.None? ==> m == Metrics(0.0, 0.0, 0.0, 0.0, 0, 0, 0)
    ensures features.Some? ==>
      && m.energy == features.value.energy && m.valence == features.value.valence
      && m.tempo == features.value.tempo && m.danceability == features.value.danceability
      && m.key == features.value.key && m.mode == features.value.mode
      && m.timeSignature == features.value.timeSignature
  {
    match features
    case None => Metrics(0.0, 0.0, 0.0, 0.0, 0, 0, 0)
    case Some(f) => Metrics(f.energy, f.valence, f.tempo, f.danceability, f.key, f.mode, f.timeSignature)
  }

  function MetricsOf(t: TrackData): Metrics {
    ExtractMetrics(Some(t.audioFeatures))
  }

  /** `tracks.map(...)`: the metrics of every track, index-aligned. */
  function TrackMetrics(tracks: seq<TrackData>): seq<Metrics> {
    seq(|tracks|, i requires 0 <= i < |tracks| => MetricsOf(tracks[i]))
  }

  /** Every band from 0 to 1: the table entry of `energetic_peaks`,
      `dynamic_rollercoaster` and of every unrecognised name. */
  const WideOpen: Thresholds :=
    Thresholds(Band(0.0, 1.0), Band(0.0, 1.0), Band(0.0, 1.0), Band(0.0, 1.0))

  /** `getCurveThresholds`: three curves narrow the bands, every other name gets
      the all-[0, 1] default, whose tempo band (in BPM) is also [0, 1]. */
  function CurveThresholds(selectedCurve: string): (th: Thresholds)
    ensures selectedCurve !in {"smooth_ascend", "evening_chill", "mellow_vibes"} ==> th == WideOpen
    ensures th.energy.min <= th.energy.max && th.valence.min <= th.valence.max
    ensures th.tempo.min <= th.tempo.max && th.danceability.min <= th.danceability.max
    ensures 0.0 <= th.energy.min && th.energy.max <= 1.0
  {
    match selectedCurve
    case "smooth_ascend" =>
      Thresholds(Band(0.2, 0.8), Band(0.2, 0.8), Band(80.0, 120.0), Band(0.2, 0.8))
    case "energetic_peaks" => WideOpen
    case "evening_chill" =>
      Thresholds(Band(0.1, 0.5), Band(0.1, 0.5), Band(60.0, 100.0), Band(0.1, 0.5))
    case "dynamic_rollercoaster" => WideOpen
    case "mellow_vibes" =>
      Thresholds(Band(0.3, 0.6), Band(0.3, 0.6), Band(70.0, 110.0), Band(0.3, 0.6))
    case _ => WideOpen
  }

  /** Energy, valence, tempo and danceability each lie in their band; key, mode and
      time signature play no part. */
  predicate Passes(m: Metrics, th: Thresholds) {
    && InBand(m.energy, th.energy)
    && InBand(m.valence, th.valence)
    && InBand(m.tempo, th.tempo)
    && InBand(m.danceability, th.danceability)
  }

  /** Holds of the tracks whose own metrics pass `th`. */
  function PassesCurve(th: Thresholds): TrackData -> bool {
    (t: TrackData) => Passes(MetricsOf(t), th)
  }

  /** `filterTracksByCurve`: keeps `tracks[i]` when `metrics[i]` passes the curve's bands. */
  function FilterTracksByCurve(tracks: seq<TrackData>, metrics: seq<Metrics>, selectedCurve: string): (kept: seq<TrackData>)
    requires |metrics| == |tracks|
    ensures |kept| <= |tracks|
  {
    if tracks == [] then []
    else
      var n := |tracks| - 1;
      FilterTracksByCurve(tracks[..n], metrics[..n], selectedCurve)
        + (if Passes(metrics[n], CurveThresholds(selectedCurve)) then [tracks[n]] else [])
  }

  lemma TrackMetricsPrefix(tracks: seq<TrackData>, n: nat)
    requires n <= |tracks|
    ensures TrackMetrics(tracks)[..n] == TrackMetrics(tracks[..n])
  {
  }

  /** With the metrics read from the tracks themselves, the curve filter keeps exactly
      the tracks whose metrics lie in every band, in their original order. */
  lemma {:induction false} FilterTracksByCurveSpec(tracks: seq<TrackData>, selectedCurve: string)
    ensures FilterTracksByCurve(tracks, TrackMetrics(tracks), selectedCurve)
      == Filter(tracks, PassesCurve(CurveThresholds(selectedCurve)))
  {
    if tracks != [] {
      var n := |tracks| - 1;
      TrackMetricsPrefix(tracks, n);
      FilterTracksByCurveSpec(tracks[..n], selectedCurve);
    }
  }

  /** The kept tracks are an order-preserving subsequence, and a track is kept iff its
      energy, valence, tempo and danceability lie in the inclusive bands. */
  lemma FilterTracksByCurveKeeps(tracks: seq<TrackData>, selectedCurve: string)
    ensures IsSubsequence(FilterTracksByCurve(tracks, TrackMetrics(tracks), selectedCurve), tracks)
    ensures forall t :: t in FilterTracksByCurve(tracks, TrackMetrics(tracks), selectedCurve) <==>
      t in tracks && Passes(MetricsOf(t), CurveThresholds(selectedCurve))
  {
    FilterTracksByCurveSpec(tracks, selectedCurve);
    FilterIsSubsequence(tracks, PassesCurve(CurveThresholds(selectedCurve)));
    FilterMembers(tracks, PassesCurve(CurveThresholds(selectedCurve)));
  }

  /** The default band admits no tempo above 1 BPM, so for `energetic_peaks`,
      `dynamic_rollercoaster` and every unrecognised curve name any track faster
      than 1 BPM is filtered out. */
  lemma WideOpenDropsRealTempos(tracks: seq<TrackData>, selectedCurve: string)
    requires selectedCurve !in {"smooth_ascend", "evening_chill", "mellow_vibes"}
    ensures forall t :: t in FilterTracksByCurve(tracks, TrackMetrics(tracks), selectedCurve) ==>
      t.audioFeatures.tempo <= 1.0
  {
    FilterTracksByCurveKeeps(tracks, selectedCurve);
  }

  /** `metrics.filter((_, index) => filteredTracks.includes(tracks[index]))`. */
  function FilteredMetrics(tracks: seq<TrackData>, metrics: seq<Metrics>, filteredTracks: seq<TrackData>): seq<Metrics>
    requires |metrics| == |tracks|
  {
    if tracks == [] then []
    else
      var n := |tracks| - 1;
      FilteredMetrics(tracks[..n], metrics[..n], filteredTracks)
        + (if tracks[n] in filteredTracks then [metrics[n]] else [])
  }

  lemma {:induction false} FilteredMetricsOfFilter(tracks: seq<TrackData>, p: TrackData -> bool, filteredTracks: seq<TrackData>)
    requires forall t :: t in tracks ==> (t in filteredTracks <==> p(t))
    ensures FilteredMetrics(tracks, TrackMetrics(tracks), filteredTracks) == TrackMetrics(Filter(tracks, p))
  {
    if tracks != [] {
      var n := |tracks| - 1;
      TrackMetricsPrefix(tracks, n);
      FilteredMetricsOfFilter(tracks[..n], p, filteredTracks);
      var prev := Filter(tracks[..n], p);
      if p(tracks[n]) {
        assert TrackMetrics(prev + [tracks[n]]) == TrackMetrics(prev) + [MetricsOf(tracks[n])];
      }
    }
  }

  /** `filteredMetrics` is index-aligned with `filteredTracks`: its i-th entry is the
      metrics of the i-th kept track. Tracks equal as values pass or fail together,
      so testing membership by value selects what the identity test selects. */
  lemma FilteredMetricsAligned(tracks: seq<TrackData>, selectedCurve: string)
    ensures FilteredMetrics(tracks, TrackMetrics(tracks), FilterTracksByCurve(tracks, TrackMetrics(tracks), selectedCurve))
      == TrackMetrics(FilterTracksByCurve(tracks, TrackMetrics(tracks), selectedCurve))
  {
    var p := PassesCurve(CurveThresholds(selectedCurve));
    FilterTracksByCurveSpec(tracks, selectedCurve);
    FilterMembers(tracks, p);
    FilteredMetricsOfFilter(tracks, p, Filter(tracks, p));
  }

  function IntAbs(x: int): nat {
    if x < 0 then -x else x
  }

  /** The distance between two pitch classes around the circle of twelve. */
  function CircleDistance(key1: int, key2: int): (d: int)
    ensures 0 <= d <= 6
  {
    var up := (key1 - key2) % 12;
    if up <= 6 then up else 12 - up
  }

  /** `harmonicCompatibility`: the shorter way between the keys plus 1 for a mode
      change. For keys at most twelve apart (all the keys the service reports,
      -1 to 11) it is the circular distance, so it lies in [0, 7]; between
      valid pitch classes it is 0 exactly when key and mode both match. */
  function HarmonicCompatibility(key1: int, mode1: int, key2: int, mode2: int): (r: int)
    ensures IntAbs(key1 - key2) <= 12 ==>
      r == CircleDistance(key1, key2) + (if mode1 == mode2 then 0 else 1)
    ensures IntAbs(key1 - key2) <= 12 ==> 0 <= r <= 7
    ensures 0 <= key1 < 12 && 0 <= key2 < 12 ==> (r == 0 <==> key1 == key2 && mode1 == mode2)
  {
    var diff := IntAbs(key1 - key2);
    var distance := if diff < 12 - diff then diff else 12 - diff;
    var modeBonus := if mode1 == mode2 then 0 else 1;
    distance + modeBonus
  }

  lemma HarmonicCompatibilitySymmetric(key1: int, mode1: int, key2: int, mode2: int)
    ensures HarmonicCompatibility(key1, mode1, key2, mode2) == HarmonicCompatibility(key2, mode2, key1, mode1)
  {
  }

  /** Unlike the flow rating, B and C count as neighbours. */
  lemma HarmonicCompatibilityWraps(mode: int)
    ensures HarmonicCompatibility(11, mode, 0, mode) == 1
  {
  }

  /** The distance of a track's metrics from a curve point. */
  function Score(m: Metrics, c: CurvePoint): real {
    Abs(m.energy - c.energy) + Abs(m.valence - c.valence) + Abs(m.tempo - c.tempo)
      + HarmonicCompatibility(m.key, m.mode, c.key, c.mode) as real
  }

  /** Each track scored against the curve point at its own position. */
  function Scores(metrics: seq<Metrics>, curveData: seq<CurvePoint>): (scores: seq<real>)
    requires |metrics| <= |curveData|
    ensures |scores| == |metrics|
    ensures forall i :: 0 <= i < |metrics| ==> scores[i] == Score(metrics[i], curveData[i])
  {
    seq(|metrics|, i requires 0 <= i < |metrics| => Score(metrics[i], curveData[i]))
  }

  /** `getSortedIndicesByCurve`: every index once, in ascending score order, equal
      scores in index order. `None` stands for the `TypeError` raised when the curve
      has fewer points than there are tracks (`curveData[index]` is `undefined`). */
  function SortedIndicesByCurve(metrics: seq<Metrics>, curveData: seq<CurvePoint>): (r: Option<seq<nat>>)
    ensures r.None? <==> |curveData| < |metrics|
    ensures r.Some? ==> multiset(r.value) == multiset(Range(|metrics|))
    ensures r.Some? ==> forall k, l :: 0 <= k < l < |r.value| ==>
      r.value[k] < |metrics| && r.value[l] < |metrics| &&
      var sk := Score(metrics[r.value[k]], curveData[r.value[k]]);
      var sl := Score(metrics[r.value[l]], curveData[r.value[l]]);
      sk < sl || (sk == sl && r.value[k] < r.value[l])
  {
    if |curveData| < |metrics| then None
    else
      var scores := Scores(metrics, curveData);
      RankByScorePermutes(scores);
      Some(RankByScore(scores))
  }

  /** `arrangeTracksByCurve` without its rendering: the tracks inside the curve's
      bands, reordered by the ranking. `None` is the `TypeError` of a curve shorter
      than the kept tracks. */
  function ArrangeTracksByCurve(tracks: seq<TrackData>, curveData: seq<CurvePoint>, selectedCurve: string)
    : (r: Option<seq<TrackData>>)
    ensures r.None? <==> |curveData| < |Filter(tracks, PassesCurve(CurveThresholds(selectedCurve)))|
    ensures r.Some? ==> multiset(r.value) == multiset(Filter(tracks, PassesCurve(CurveThresholds(selectedCurve))))
  {
    var metrics := TrackMetrics(tracks);
    var filteredTracks := FilterTracksByCurve(tracks, metrics, selectedCurve);
    var filteredMetrics := FilteredMetrics(tracks, metrics, filteredTracks);
    FilterTracksByCurveSpec(tracks, selectedCurve);
    FilteredMetricsAligned(tracks, selectedCurve);
    match SortedIndicesByCurve(filteredMetrics, curveData)
    case None => None
    case Some(sortedIndices) =>
      ReorderByRankPermutes(filteredTracks, Scores(filteredMetrics, curveData));
      Some(Reorder(filteredTracks, sortedIndices))
  }

  /** The names for which the handler calls a curve generator. */
  const GeneratedCurves: set<string> :=
    {"smooth_ascend", "energetic_peaks", "evening_chill", "dynamic_rollercoaster", "mellow_vibes"}

  /** The selector's change handler. The five generators it calls are not part of
      this model; `generated` stands for what the selected one returns. Every other
      name keeps `curveData = []`. */
  function CurveChange(tracks: seq<TrackData>, selectedCurve: string, generated: seq<CurvePoint>): (o: Outcome)
    ensures selectedCurve !in GeneratedCurves ==>
      (o == Rendered([]) <==> Filter(tracks, PassesCurve(WideOpen)) == [])
    ensures selectedCurve !in GeneratedCurves ==> (o.TypeError? <==> Filter(tracks, PassesCurve(WideOpen)) != [])
  {
    var curveData := if selectedCurve in GeneratedCurves then generated else [];
    match ArrangeTracksByCurve(tracks, curveData, selectedCurve)
    case None => TypeError
    case Some(sortedTracks) => Rendered(sortedTracks)
  }

  /** An unrecognised curve name shows nothing whenever every track is faster than
      1 BPM, and fails outright if any track is not. */
  lemma UnknownCurveShowsNothing(tracks: seq<TrackData>, selectedCurve: string, generated: seq<CurvePoint>)
    requires selectedCurve !in GeneratedCurves
    requires forall t :: t in tracks ==> t.audioFeatures.tempo > 1.0
    ensures CurveChange(tracks, selectedCurve, generated) == Rendered([])
  {
    FilterNone(tracks, PassesCurve(WideOpen));
  }
}
