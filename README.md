# Playlist ordering and scoring

This project models the track-ordering and scoring core of a playlist-curation web app.
The browser pages fetch the tracks of the user's playlists together with their audio features:
energy, valence, tempo, danceability, key, mode and time signature.
They filter the tracks with four range sliders and order them in one of two ways:
- by the default *dynamic sort*, which groups tracks by key and mode and sorts each group by tempo and then energy, and rates every transition with a 1–10 *flow rating*;
- by a named *mood curve*, which scores each track against the curve point at its own position and stable-sorts by that score.

A small backend validates the track list it receives before creating a playlist. It also merges each playlist item with its feature record.

The model is organised by the program's own pieces:

| module | file | what it holds |
|---|---|---|
| `Seqs` | sequences.dfy | `Option`, an order-preserving `Filter` with its laws (subsequence, counts, membership, concatenation, composition), `Abs` and `Sum` |
| `StableSort` | stable_sort.dfy | the stable sort behind `Array.prototype.sort` with a two-level numeric comparator; ranking indices by score; reordering by a ranking |
| `Tracks` | tracks.dfy | the records: audio features, the service's track object, the `trackData` row, an inclusive band, and the `Outcome` of a curve selector change (`Rendered` rows or a `TypeError`) |
| `Utils` | utils.dfy | `getKeyMapping` and `getModeMapping` |
| `DataHandling` | data_handling.dfy | `dynamicSort` (imperative, as in the source), `calculateFlowRating`, the rating loop and the average |
| `EventHandling` | event_handling.dfy | the curve page with band filters: metric extraction, `getCurveThresholds`, `filterTracksByCurve`, `harmonicCompatibility`, curve matching and the selector handler |
| `PlaylistCreator` | playlist_creator.dfy | the creator page: the curve generators (loops), curve matching without the harmonic term, `totalTime`, the selector handler and the URI filter of the create button |
| `TrackFilter` | track_filter.dfy | the slider predicate and its inline copy, the `trackData` projections, the row-building loop of `loadTracks`, the default slider bounds and the create button that collects rows |
| `App` | app.dfy | `is_token_expired`, the validation in `create_playlist` and the merge in `playlist_tracks` |

The main design choices:
- JavaScript numbers are modelled as exact `real`s. Keys and modes are `int`s.
- A JavaScript `TypeError`, for example reading `curveData[0]` of an empty curve, is an explicit outcome (`None` or `TypeError`). It is never a precondition.
- `Array.prototype.sort` is stable, so it is modelled as a stable insertion sort (`StableSort.SortBy`). The comparator `a.p - b.p || a.s - b.s` becomes a lexicographic key (`SortKey`).
- `dynamicSort` groups tracks under string keys such as `"5-1"`. Such keys are not array indices, so `for … in` visits them in insertion order. The model therefore keeps the keys in first-seen order (`DataHandling.FirstSeen`) next to a `map`.
- Slider values, fetched data, `Math.sin` and `Math.PI` are parameters.

Two behaviours of the code that the model keeps as written:
- A key of −1 stays −1: `audioFeatures.key || 0` keeps it, because −1 is truthy. The flow rating uses the raw key. `EventHandling.ExtractMetrics` and `DataHandling.FlowRating` keep the key as given.
- The code gives `energetic_peaks`, `dynamic_rollercoaster` and every unknown name a tempo band of [0, 1] BPM. The band applies to tempo in BPM, so it rejects every real track (`EventHandling.WideOpenDropsRealTempos`, `EventHandling.UnknownCurveShowsNothing`).

## Model

| member | source | states |
|---|---|---|
| StableSort.SortBySorted | static/js/data_handling.js:115-120 | the sort's output is ordered by (tempo, energy): each element's key is at most the next one's |
| StableSort.SortByStable | static/js/data_handling.js:115-120 | elements with equal sort keys come out in their input order (the sort is stable) |
| StableSort.SortByOfSorted | static/js/data_handling.js:115-120 | sorting an already sorted sequence changes nothing |
| StableSort.RankByScore | static/js/event_handling.js:148-158 | the ranking has one entry per scored item, every entry is a valid index, scores never decrease along it, and equal scores keep ascending index order |
| StableSort.RankByScorePermutes | static/js/playlist_creator.js:124-133 | the ranking is a permutation of the indices 0..n−1 |
| StableSort.ReorderByRankPermutes | static/js/event_handling.js:62-63 | mapping a ranking back to items (`sortedIndices.map(index => filteredTracks[index])`) gives a permutation of the items |
| Utils.KeyName | static/js/utils.js:1-4 | keys 0..11 map to the twelve pitch-class names C to B in order; the result is 'Unknown' exactly when the key is outside 0..11 |
| Utils.ModeName | static/js/utils.js:6-8 | 'Major' exactly when mode is 1, 'Minor' for every other value |
| Utils.KeyNameRoundTrip | static/js/utils.js:1-4 | the name of a key 0..11 is found back at that key's position in the name table |
| Utils.KeyNameInjective | static/js/utils.js:2 | two keys in 0..11 with the same name are equal |
| DataHandling.DynamicSort | static/js/data_handling.js:103-129 | the imperative grouping, per-group sort and concatenation produce exactly `GroupedOrder` of the input |
| DataHandling.GroupByKeyMode | static/js/data_handling.js:105-112 | the push loop yields the (key, mode) pairs in first-seen order and, under each, exactly the input's tracks with that pair, in input order |
| DataHandling.SortGroups | static/js/data_handling.js:115-120 | every group is replaced by its stable sort by (tempo, energy); the key set is unchanged |
| DataHandling.CombineGroups | static/js/data_handling.js:123-126 | the concat loop yields the groups one after another in first-seen key order |
| DataHandling.FirstSeenFacts | static/js/data_handling.js:105-112 | the group keys have no duplicates, and a pair is a key exactly when some track has that key and mode |
| DataHandling.GroupOfConcat | static/js/data_handling.js:103-129 | the tracks of one (key, mode) pair in the output are that pair's input tracks, sorted |
| DataHandling.GroupedOrderPermutes | static/js/data_handling.js:103-129 | the output is a permutation of the input: no track is dropped or duplicated |
| DataHandling.GroupedOrderShape | static/js/data_handling.js:105-126 | tracks with equal (key, mode) are contiguous in the output, and within a run tempo and then energy never decrease |
| DataHandling.GroupedOrderGroupSequence | static/js/data_handling.js:105-126 | the output's (key, mode) pairs, by first occurrence, come in the order of their first occurrence in the input |
| DataHandling.GroupedOrderStable | static/js/data_handling.js:115-120 | tracks equal in key, mode, tempo and energy keep their input order |
| DataHandling.GroupedOrderIdempotent | static/js/data_handling.js:103-129 | sorting the output again returns it unchanged |
| DataHandling.FlowRating | static/js/data_handling.js:131-140 | the rating lies in [1, 10]; it is exactly 10 iff key, mode, tempo and energy all agree |
| DataHandling.FlowRatingSymmetric | static/js/data_handling.js:132-138 | the rating does not depend on the order of the two tracks |
| DataHandling.FlowRatingLinearKey | static/js/data_handling.js:132 | key distance is linear, not circular: keys 11 and 0 with equal other features rate 1 (11 is subtracted, then clamped) |
| DataHandling.FlowRatingMonotone | static/js/data_handling.js:132-139 | a track at least as close in key, mode, tempo and energy never rates lower |
| DataHandling.FlowRatingTempoFloor | static/js/data_handling.js:134-139 | a tempo gap of 90 BPM or more alone gives the floor rating 1 |
| DataHandling.RateSortedTracks | static/js/data_handling.js:46-52 | one rating per track; the first is 10 and every later one is the flow rating against its predecessor; the total is their sum and the count their number, so count ≤ total ≤ 10·count |
| DataHandling.AverageFlowRating | static/js/data_handling.js:74 | no number (0/0) exactly when no track was rated; otherwise total/count, which lies in [1, 10] |
| EventHandling.ExtractMetrics | static/js/event_handling.js:46-57 | missing audio features give seven zeros; otherwise each metric is the feature's value |
| EventHandling.CurveThresholds | static/js/event_handling.js:101-146 | every name other than smooth_ascend, evening_chill and mellow_vibes gets the all-[0, 1] bands; every band is non-empty and the energy band lies in [0, 1] |
| EventHandling.FilterTracksByCurveSpec | static/js/event_handling.js:88-99 | filtering with the tracks' own metrics keeps exactly the tracks whose four metrics lie in the curve's inclusive bands, in order |
| EventHandling.FilterTracksByCurveKeeps | static/js/event_handling.js:88-99 | the result is an order-preserving subsequence of the tracks, and a track is in it iff its metrics pass the bands |
| EventHandling.WideOpenDropsRealTempos | static/js/event_handling.js:110-144 | for energetic_peaks, dynamic_rollercoaster and unknown names, every kept track has tempo at most 1 |
| EventHandling.FilteredMetricsAligned | static/js/event_handling.js:59-60 | the filtered metrics are exactly the metrics of the filtered tracks, position by position |
| EventHandling.HarmonicCompatibility | static/js/event_handling.js:160-167 | for keys at most 12 apart: circular distance plus 1 on a mode mismatch, in [0, 7]; for keys 0..11 it is 0 iff key and mode both match |
| EventHandling.HarmonicCompatibilitySymmetric | static/js/event_handling.js:160-167 | the value does not depend on the order of the two (key, mode) pairs |
| EventHandling.HarmonicCompatibilityWraps | static/js/event_handling.js:161-164 | keys 11 and 0 are neighbours (distance 1) |
| EventHandling.Scores | static/js/event_handling.js:149-154 | one score per track, each against the curve point at the same index |
| EventHandling.SortedIndicesByCurve | static/js/event_handling.js:148-158 | fails (`curveData[index]` undefined) iff the curve is shorter than the metrics; otherwise a permutation of 0..n−1 in non-decreasing score order, ties in index order |
| EventHandling.ArrangeTracksByCurve | static/js/event_handling.js:45-63 | fails iff the curve has fewer points than the tracks that pass the bands; otherwise the result is a permutation of those tracks |
| EventHandling.CurveChange | static/js/event_handling.js:2-32 | for a name without a generator the curve is empty, so the handler renders nothing when no track passes the default bands and throws otherwise |
| EventHandling.UnknownCurveShowsNothing | static/js/event_handling.js:16-31 | with an unknown name and only tracks faster than 1 BPM, the handler renders an empty list |
| PlaylistCreator.TotalTimeConcat | static/js/playlist_creator.js:49 | the total duration of two track lists together is the sum of their totals |
| PlaylistCreator.TotalTimePermutation | static/js/playlist_creator.js:49 | the total duration does not depend on the order of the tracks |
| PlaylistCreator.ShareBounds | static/js/playlist_creator.js:150 | `i / trackCount` lies in [0, 1) and grows strictly with i |
| PlaylistCreator.GetPartyGoingCurve | static/js/playlist_creator.js:147-153 | exactly trackCount points; energy i/n in [0, 1), strictly increasing; valence and tempo 0.5 |
| PlaylistCreator.DarkToLightCurve | static/js/playlist_creator.js:155-161 | exactly trackCount points; valence i/n in [0, 1), strictly increasing; energy and tempo 0.5 |
| PlaylistCreator.HighEnergyPeaksCurve | static/js/playlist_creator.js:163-169 | exactly trackCount points; energy sin(i/n·π·4)·0.5 + 0.5 with the given sine and π, so in [0, 1] for a sine bounded by 1; valence and tempo 0.5 |
| PlaylistCreator.PeakEnergy | static/js/playlist_creator.js:163-169 | the energy target sin(4πi/n)/2 + 1/2 lies in [0, 1] whenever the sine lies in [−1, 1] |
| PlaylistCreator.RelaxedEveningCurve | static/js/playlist_creator.js:171-177 | exactly trackCount points; tempo 1 − i/n in (0, 1], strictly decreasing; energy and valence 0.5 |
| PlaylistCreator.BuildUpReleaseCurve | static/js/playlist_creator.js:179-185 | exactly trackCount points; energy and tempo 1 at even and 0.5 at odd positions; valence 0.5 |
| PlaylistCreator.ExtractLevels | static/js/playlist_creator.js:101-108 | missing audio features give zeros; otherwise energy, valence and tempo are the feature values |
| PlaylistCreator.Score | static/js/playlist_creator.js:127-129 | the score is non-negative and 0 exactly when the track's levels equal the curve point |
| PlaylistCreator.Scores | static/js/playlist_creator.js:125-130 | one score per track, each against the curve point at the same index |
| PlaylistCreator.SortedIndicesByCurve | static/js/playlist_creator.js:124-133 | fails iff the curve is shorter than the metrics; otherwise a permutation of 0..n−1 in non-decreasing score order, ties in index order |
| PlaylistCreator.ArrangeTracksByCurve | static/js/playlist_creator.js:99-111 | fails iff the curve has fewer points than the tracks; otherwise the result is a permutation of the tracks |
| PlaylistCreator.CurveChange | static/js/playlist_creator.js:47-65 | a named curve renders a permutation of the stored tracks; any other name leaves the curve empty, which throws iff there is at least one track |
| PlaylistCreator.CollectOrderedTracks | static/js/playlist_creator.js:67-76 | the listed tracks with a non-empty `audio_features.uri`, in list order: membership iff such a URI, and an order-preserving subsequence |
| TrackFilter.MatchesFiltersWiden | static/js/track_handling.js:72-82 | the range test is monotone in the ranges: a track that matches some slider ranges matches every set of ranges containing them |
| TrackFilter.MatchesFiltersInclusive | static/js/playlist_builder.js:146-149 | values equal to a range's min or max pass |
| TrackFilter.DefaultBoundsTempo | static/js/playlist_builder.js:9-51 | under the start positions ([0, 1], [60, 180], [0, 1], [0, 1]) a tempo outside 60–180 is rejected, and the full domain is accepted |
| TrackFilter.InlineRangeTestIsMatchesFilters | static/js/initialization.js:96-99 | the inline test accepts exactly what `isTrackMatchingFilters` accepts |
| TrackFilter.ProjectTrack | static/js/track_handling.js:20-30 | the row copies name, artist names, album name, duration_ms, features and uri; the annotated rows (track_handling.js, initialization.js) add the key name, which reads back to the key for 0..11 and is 'Unknown' otherwise, the mode name and the time signature; the plain rows (playlist_builder.js) leave key name, mode name and time signature unset |
| TrackFilter.LoadRows | static/js/track_handling.js:10-49 | the loop stops exactly when a track has no features; the rows are the projections of the matching tracks before that point, in order |
| TrackFilter.RowsMatchInOrder | static/js/playlist_builder.js:87-117 | every row comes from a track that matches the sliders, and the matching tracks are an order-preserving subsequence of the fetched data |
| TrackFilter.RowsCompleteWhenAnalysed | static/js/initialization.js:89-133 | when every fetched track has features, the pass finishes with one row per matching track |
| TrackFilter.CollectSelectedTracks | static/js/playlist_builder.js:160-172 | the stored list is every row's track record, in table order |
| App.TokenExpired | app.py:105-107 | expired iff fewer than 60 seconds remain before `expires_at` |
| App.TokenExpiredMonotone | app.py:105-107 | a token that is expired stays expired later |
| App.Uris | app.py:198-201 | one URI per track, in input order |
| App.CreatePlaylist | app.py:187-214 | 400 'No track data provided' without a body or `tracks`; 400 'Track data missing 'uri' key' when any track lacks a URI; 400 'No track URIs found' for an empty list; otherwise the tracks' URIs in order. With `tracks` present the result satisfies `AnswersCreate`, so `CreateAcceptsExactly` applies to it |
| App.CreateAcceptsExactly | app.py:194-208 | a request succeeds iff it lists at least one track and all have a URI, and then each URI is at its track's position |
| App.MergeTrack | app.py:156-159 | the merged track has the feature record as `audio_features`, lacks `available_markets` and `external_ids`, and keeps every other key and value |
| App.MergePlaylist | app.py:156-160 | `zip` pairs items and feature records position by position, up to the shorter list |
| App.PlaylistTracks | app.py:142-163 | 400 'No playlist IDs provided' for no IDs; otherwise the merged tracks of all playlists |
| App.AllTracksOrder | app.py:150-160 | the result lists the playlists in request order: the i-th zipped track of playlist p sits after all tracks of earlier playlists, merged with its own feature record |

## Left out

- DOM, jQuery, DataTables, select2, noUiSlider, Sortable and Chart.js: rendering and UI. static/js/chart_setup.js and the `updateChart` functions are not part of this model, and neither is the `updateChart()` call without arguments in the Sortable `onSort` handler.
- `fetch`, `localStorage`, page navigation, Flask routing, OAuth, the session and the service client: I/O. Fetched tracks, feature lists, stored tracks and slider values are parameters.
- JSON encoding and decoding of rows (`encodeURIComponent(JSON.stringify(…))` and its inverse) is taken as the identity on track records.
- The `selectedPlaylists.length > 0` branch of `loadTracks` and `resetTable`: UI state.
- Event-driven re-fetching and last-response-wins races: concurrency.
- `toFixed` formatting and IEEE-754 rounding: feature values are exact reals.
- EventHandling.CurveChange: the five curve generators the handler calls are not defined in the modelled files. Their result is the parameter `generated`, and the contract only constrains names without a generator. If they are undefined at run time, the call throws a ReferenceError, which the free parameter `generated` does not capture.
- EventHandling.ExtractMetrics: models missing `audio_features` as a whole, not a single missing, null or NaN field inside a present record; a field value of 0 and a missing field give the same 0, so only the latter case is lost.
- PlaylistCreator.ExtractLevels: same restriction as `EventHandling.ExtractMetrics`.
- PlaylistCreator.HighEnergyPeaksCurve: `Math.sin` and `Math.PI` are parameters; the energy bound [0, 1] rests on the stated assumption that the sine stays in [−1, 1], and the curve's shape (two peaks) is not proved.
- EventHandling.HarmonicCompatibility: the contract covers keys at most 12 apart, which includes every key the service reports (−1 to 11). Further apart, the source's `min` goes negative, and the model computes the same value without a stated bound.
- The NaN that `harmonicCompatibility` would produce for curve points without key or mode: curve points carry explicit integer key and mode.
- DataHandling.FlowRating: inputs are exact reals, so NaN features (which make `Math.max` return NaN) are not modelled.
- DataHandling.AverageFlowRating: 0/0 is NaN in the source, shown as "NaN"; the model returns `None`.
- TrackFilter.MatchesFilters: slider values are taken after `parseFloat`. The inline test in initialization.js compares numbers with the slider's formatted strings, which JavaScript converts back to the same numbers, so `InlineRangeTest` compares numbers too.
- TrackFilter.LoadRows: a track with null features throws inside `forEach`, ending the pass; the model reports this as `failed` and keeps the rows appended before it. The later error alert is UI.
- App.CreatePlaylist: the created playlist and the service calls are not modelled; the success value is the list of URIs passed to the service. A `tracks` value that is not a list (for example null) is left out. So is a request that is not JSON: it gives a 500 through the generic handler, or the modelled 400 when Flask returns None. Track elements that are not JSON objects are left out as well: `'uri' in track` then applies Python's `in` for that element's type and answers 400 or 500 depending on the type, which `seq<map<string, Json>>` cannot express. The 500 replies for service or unexpected errors are left out.
- App.PlaylistTracks: `items` and `features` stand for the service's answers; the 500 replies for service errors are left out.
