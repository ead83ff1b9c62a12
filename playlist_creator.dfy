/** The playlist-creator page: the named curve generators, ranking the stored
    tracks against a curve by energy, valence and tempo gaps, the total play time
    and the tracks sent when the playlist is created. */
module PlaylistCreator {
  import opened Seqs
  import opened StableSort
  import opened Tracks

  /** Energy, valence and tempo: a curve point, or the metrics read from a track. */
  datatype Levels = Levels(energy: real, valence: real, tempo: real)

  /** `data.tracks.reduce((sum, track) => sum + track.duration, 0)`. */
  function TotalTime(tracks: seq<TrackData>): int {
    if tracks == [] then 0 else TotalTime(tracks[..|tracks| - 1]) + tracks[|tracks| - 1].duration
  }

  lemma {:induction false} TotalTimeConcat(a: seq<TrackData>, b: seq<TrackData>)
    ensures TotalTime(a + b) == TotalTime(a) + TotalTime(b)
  {
    if b == [] {
      assert a + b == a;
    } else {
      var n := |b| - 1;
      TotalTimeConcat(a, b[..n]);
      assert (a + b)[..|a + b| - 1] == a + b[..n];
    }
  }

  /** The total play time does not depend on the order of the tracks. */
  lemma {:induction false} TotalTimePermutation(a: seq<TrackData>, b: seq<TrackData>)
    requires multiset(a) == multiset(b)
    ensures TotalTime(a) == TotalTime(b)
    decreases |a|
  {
    if a != [] {
      var n := |a| - 1;
      var x := a[n];
      assert x in multiset(b);
      var k :| 0 <= k < |b| && b[k] == x;
      RemoveMatching(a, b, k);
      TotalTimePermutation(a[..n], b[..k] + b[k + 1..]);
      assert b == b[..k] + [x] + b[k + 1..];
      TotalTimeConcat(b[..k] + [x], b[k + 1..]);
      TotalTimeConcat(b[..k], [x]);
      TotalTimeConcat(b[..k], b[k + 1..]);
    }
  }

  /** `i / trackCount`: how far along the playlist position `i` lies. */
  function Share(i: nat, trackCount: nat): real
    requires i < trackCount
  {
    i as real / trackCount as real
  }

  /** The shares of the positions of a curve lie in [0, 1) and strictly increase. */
  lemma ShareBounds(i: nat, trackCount: nat)
    requires i < trackCount
    ensures 0.0 <= Share(i, trackCount) < 1.0
    ensures forall k: nat :: k < i ==> Share(k, trackCount) < Share(i, trackCount)
  {
    var n := trackCount as real;
    assert Share(i, trackCount) * n == i as real < n;
    forall k: nat | k < i ensures Share(k, trackCount) < Share(i, trackCount) {
      assert Share(k, trackCount) * n == k as real;
    }
  }

  /** `generateGetPartyGoingCurve`: energy climbs from 0 towards 1 as the share `i / trackCount`;
      valence and tempo stay at 0.5. The total time is not used. */
  method GetPartyGoingCurve(totalTime: int, trackCount: nat) returns (curve: seq<Levels>)
    ensures |curve| == trackCount
    ensures forall i :: 0 <= i < trackCount ==>
      curve[i] == Levels(Share(i, trackCount), 0.5, 0.5) && 0.0 <= curve[i].energy < 1.0
    ensures forall i, j :: 0 <= i < j < trackCount ==> curve[i].energy < curve[j].energy
  {
    curve := [];
    for i := 0 to trackCount
      invariant |curve| == i
      invariant forall k :: 0 <= k < i ==>
        curve[k] == Levels(Share(k, trackCount), 0.5, 0.5) && 0.0 <= curve[k].energy < 1.0
      invariant forall k, l :: 0 <= k < l < i ==> curve[k].energy < curve[l].energy
    {
      ShareBounds(i, trackCount);
      curve := curve + [Levels(Share(i, trackCount), 0.5, 0.5)];
    }
  }

  /** `generateDarkToLightCurve`: valence climbs as `i / trackCount`; energy and
      tempo stay at 0.5. */
  method DarkToLightCurve(totalTime: int, trackCount: nat) returns (curve: seq<Levels>)
    ensures |curve| == trackCount
    ensures forall i :: 0 <= i < trackCount ==>
      curve[i] == Levels(0.5, Share(i, trackCount), 0.5) && 0.0 <= curve[i].valence < 1.0
    ensures forall i, j :: 0 <= i < j < trackCount ==> curve[i].valence < curve[j].valence
  {
    curve := [];
    for i := 0 to trackCount
      invariant |curve| == i
      invariant forall k :: 0 <= k < i ==>
        curve[k] == Levels(0.5, Share(k, trackCount), 0.5) && 0.0 <= curve[k].valence < 1.0
      invariant forall k, l :: 0 <= k < l < i ==> curve[k].valence < curve[l].valence
    {
      ShareBounds(i, trackCount);
      curve := curve + [Levels(0.5, Share(i, trackCount), 0.5)];
    }
  }

  /** The energy target of the high-energy-peaks curve at position `i`:
      `sin(4 pi i / trackCount) / 2 + 1/2`, in [0, 1] when the sine stays in [-1, 1]. */
  function PeakEnergy(i: nat, trackCount: nat, sine: real -> real, pi: real): (e: real)
    requires i < trackCount
    requires forall x :: -1.0 <= sine(x) <= 1.0
    ensures 0.0 <= e <= 1.0
  {
    sine(Share(i, trackCount) * pi * 4.0) * 0.5 + 0.5
  }

  /** `generateHighEnergyPeaksCurve` with `Math.sin` and `Math.PI` passed in:
      energy follows two sine periods, valence and tempo stay at 0.5. */
  method HighEnergyPeaksCurve(totalTime: int, trackCount: nat, sine: real -> real, pi: real)
    returns (curve: seq<Levels>)
    requires forall x :: -1.0 <= sine(x) <= 1.0
    ensures |curve| == trackCount
    ensures forall i :: 0 <= i < trackCount ==> 0.0 <= curve[i].energy <= 1.0
    ensures forall i :: 0 <= i < trackCount ==> curve[i] == Levels(PeakEnergy(i, trackCount, sine, pi), 0.5, 0.5)
  {
    curve := [];
    for i := 0 to trackCount
      invariant |curve| == i
      invariant forall k :: 0 <= k < i ==> curve[k] == Levels(PeakEnergy(k, trackCount, sine, pi), 0.5, 0.5)
    {
      curve := curve + [Levels(PeakEnergy(i, trackCount, sine, pi), 0.5, 0.5)];
    }
  }

  /** `generateRelaxedEveningCurve`: tempo falls from 1 as `1 - i / trackCount`,
      staying above 0; energy and valence stay at 0.5. */
  method RelaxedEveningCurve(totalTime: int, trackCount: nat) returns (curve: seq<Levels>)
    ensures |curve| == trackCount
    ensures forall i :: 0 <= i < trackCount ==>
      curve[i] == Levels(0.5, 0.5, 1.0 - Share(i, trackCount)) && 0.0 < curve[i].tempo <= 1.0
    ensures forall i, j :: 0 <= i < j < trackCount ==> curve[i].tempo > curve[j].tempo
  {
    curve := [];
    for i := 0 to trackCount
      invariant |curve| == i
      invariant forall k :: 0 <= k < i ==>
        curve[k] == Levels(0.5, 0.5, 1.0 - Share(k, trackCount)) && 0.0 < curve[k].tempo <= 1.0
      invariant forall k, l :: 0 <= k < l < i ==> curve[k].tempo > curve[l].tempo
    {
      ShareBounds(i, trackCount);
      curve := curve + [Levels(0.5, 0.5, 1.0 - Share(i, trackCount))];
    }
  }

  /** `generateBuildUpReleaseCurve`: energy and tempo alternate between 1 at even
      positions and 0.5 at odd ones; valence stays at 0.5. */
  method BuildUpReleaseCurve(totalTime: int, trackCount: nat) returns (curve: seq<Levels>)
    ensures |curve| == trackCount
    ensures forall i :: 0 <= i < trackCount && i % 2 == 0 ==> curve[i] == Levels(1.0, 0.5, 1.0)
    ensures forall i :: 0 <= i < trackCount && i % 2 == 1 ==> curve[i] == Levels(0.5, 0.5, 0.5)
  {
    curve := [];
    for i := 0 to trackCount
      invariant |curve| == i
      invariant forall k :: 0 <= k < i && k % 2 == 0 ==> curve[k] == Levels(1.0, 0.5, 1.0)
      invariant forall k :: 0 <= k < i && k % 2 == 1 ==> curve[k] == Levels(0.5, 0.5, 0.5)
    {
      var level := if i % 2 == 0 then 1.0 else 0.5;
      curve := curve + [Levels(level, 0.5, level)];
    }
  }

  /** `track.audio_features || {}` and then `field || 0` for the three levels. */
  function ExtractLevels(features: Option<AudioFeatures>): (m: Levels)
    ensures features.None? ==> m == Levels(0.0, 0.0, 0.0)
    ensures features.Some? ==>
      m.energy == features.value.energy && m.valence == features.value.valence && m.tempo == features.value.tempo
  {
    match features
    case None => Levels(0.0, 0.0, 0.0)
    case Some(f) => Levels(f.energy, f.valence, f.tempo)
  }

  function TrackLevels(tracks: seq<TrackData>): seq<Levels> {
    seq(|tracks|, i requires 0 <= i < |tracks| => ExtractLevels(Some(tracks[i].audioFeatures)))
  }

  /** The sum of the absolute energy, valence and tempo gaps. */
  function Score(m: Levels, c: Levels): (score: real)
    ensures score >= 0.0
    ensures score == 0.0 <==> m == c
  {
    Abs(m.energy - c.energy) + Abs(m.valence - c.valence) + Abs(m.tempo - c.tempo)
  }

  function Scores(metrics: seq<Levels>, curveData: seq<Levels>): (scores: seq<real>)
    requires |metrics| <= |curveData|
    ensures |scores| == |metrics|
    ensures forall i :: 0 <= i < |metrics| ==> scores[i] == Score(metrics[i], curveData[i])
  {
    seq(|metrics|, i requires 0 <= i < |metrics| => Score(metrics[i], curveData[i]))
  }

  /** `getSortedIndicesByCurve` of this page (no harmonic term): every index once,
      in ascending score order, equal scores in index order; `None` is the
      `TypeError` of a curve with fewer points than tracks. */
  function SortedIndicesByCurve(metrics: seq<Levels>, curveData: seq<Levels>): (r: Option<seq<nat>>)
    ensures r.None? <==> |curveData| < |metrics|
    ensures r.Some? ==> multiset(r.value) == multiset(Range(|metrics|))
    ensures r.Some? ==> forall k, l :: 0 <= k < l < |r.value| ==>
      r.value[k] < |metrics| && r.value[l] < |metrics| &&
      var sk := Score(metrics[r.value[k]], curveData[r.value[k]]);
      var sl := Score(metrics[r.value[l]], curveData[r.value[l]]);
      sk < sl || (sk == sl && r.value[k] < r.value[l])
  {
    if |curveData| < |metrics| then None
    else
      var scores := Scores(metrics, curveData);
      RankByScorePermutes(scores);
      Some(RankByScore(scores))
  }

  /** `arrangeTracksByCurve` without its rendering: the stored tracks (always in
      their stored order, whatever the list shows) reordered by the ranking. */
  function ArrangeTracksByCurve(tracks: seq<TrackData>, curveData: seq<Levels>): (r: Option<seq<TrackData>>)
    ensures r.None? <==> |curveData| < |tracks|
    ensures r.Some? ==> multiset(r.value) == multiset(tracks)
  {
    var metrics := TrackLevels(tracks);
    match SortedIndicesByCurve(metrics, curveData)
    case None => None
    case Some(sortedIndices) =>
      ReorderByRankPermutes(tracks, Scores(metrics, curveData));
      Some(Reorder(tracks, sortedIndices))
  }

  const NamedCurves: set<string> :=
    {"get_party_going", "dark_to_light", "high_energy_peaks", "relaxed_evening", "build_up_release"}

  /** The selector's change handler. A named curve has one point per stored track,
      so the list shows a permutation of the tracks; any other name leaves the curve
      empty, which fails as soon as there is a track to score. */
  method CurveChange(tracks: seq<TrackData>, selectedCurve: string, sine: real -> real, pi: real)
    returns (o: Outcome)
    requires forall x :: -1.0 <= sine(x) <= 1.0
    ensures selectedCurve in NamedCurves ==> o.Rendered? && multiset(o.rows) == multiset(tracks)
    ensures selectedCurve !in NamedCurves ==> (o.TypeError? <==> tracks != [])
    ensures selectedCurve !in NamedCurves && tracks == [] ==> o == Rendered([])
  {
    var totalTime := TotalTime(tracks);
    var curveData: seq<Levels> := [];
    if selectedCurve == "get_party_going" {
      curveData := GetPartyGoingCurve(totalTime, |tracks|);
    } else if selectedCurve == "dark_to_light" {
      curveData := DarkToLightCurve(totalTime, |tracks|);
    } else if selectedCurve == "high_energy_peaks" {
      curveData := HighEnergyPeaksCurve(totalTime, |tracks|, sine, pi);
    } else if selectedCurve == "relaxed_evening" {
      curveData := RelaxedEveningCurve(totalTime, |tracks|);
    } else if selectedCurve == "build_up_release" {
      curveData := BuildUpReleaseCurve(totalTime, |tracks|);
    }
    match ArrangeTracksByCurve(tracks, curveData)
    case None => o := TypeError;
    case Some(sortedTracks) => o := Rendered(sortedTracks);
  }

  /** `track.audio_features.uri` is truthy: present and not empty. */
  predicate HasFeatureUri(t: TrackData) {
    t.audioFeatures.uri.Some? && t.audioFeatures.uri.value != ""
  }

  /** The create-playlist handler: the listed tracks, in list order, that carry a
      feature URI; the others are only logged. */
  method CollectOrderedTracks(listed: seq<TrackData>) returns (orderedTracks: seq<TrackData>)
    ensures orderedTracks == Filter(listed, HasFeatureUri)
    ensures forall t :: t in orderedTracks <==> t in listed && HasFeatureUri(t)
    ensures IsSubsequence(orderedTracks, listed)
  {
    orderedTracks := [];
    for i := 0 to |listed|
      invariant orderedTracks == Filter(listed[..i], HasFeatureUri)
    {
      assert listed[..i + 1][..i] == listed[..i];
      if HasFeatureUri(listed[i]) {
        orderedTracks := orderedTracks + [listed[i]];
      }
    }
    assert listed[..|listed|] == listed;
    FilterMembers(listed, HasFeatureUri);
    FilterIsSubsequence(listed, HasFeatureUri);
  }
}
