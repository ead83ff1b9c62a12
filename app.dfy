/** The backend's request handling: the token-expiry test, the validation that
    turns a create-playlist request into the list of track URIs, and the merge of
    playlist items with their audio features. */
module App {
  import opened Seqs

  /** A JSON value; an object is a map from its keys to their values. */
  datatype Json =
    | Null
    | Bool(b: bool)
    | Number(n: real)
    | Text(s: string)
    | Array(elements: seq<Json>)
    | Object(members: map<string, Json>)

  /** An HTTP reply: an error status with its message, or the handler's result. */
  datatype Response<T> = Failure(status: int, message: string) | Success(value: T)

  /** `is_token_expired`: the token counts as expired when fewer than 60 seconds
      remain before `expires_at`. */
  function TokenExpired(expiresAt: real, now: real): (expired: bool)
    ensures expired <==> now > expiresAt - 60.0
  {
    expiresAt - now < 60.0
  }

  /** A token that has expired stays expired as time goes on. */
  lemma TokenExpiredMonotone(expiresAt: real, now: real, later: real)
    requires now <= later && TokenExpired(expiresAt, now)
    ensures TokenExpired(expiresAt, later)
  {
  }

  /** The tracks' URIs, in order. */
  function Uris(tracks: seq<map<string, Json>>): (uris: seq<Json>)
    requires forall i :: 0 <= i < |tracks| ==> "uri" in tracks[i]
    ensures |uris| == |tracks|
    ensures forall i :: 0 <= i < |tracks| ==> uris[i] == tracks[i]["uri"]
  {
    seq(|tracks|, i requires 0 <= i < |tracks| => tracks[i]["uri"])
  }

  /** The validation and URI extraction of `create_playlist`. `data` is the parsed
      request body (`None` when there is none); on success the result is the list
      of URIs handed to the service for the new playlist. */
  method CreatePlaylist(data: Option<map<string, seq<map<string, Json>>>>) returns (response: Response<seq<Json>>)
    ensures data.None? || "tracks" !in data.value ==> response == Failure(400, "No track data provided")
    ensures data.Some? && "tracks" in data.value ==> AnswersCreate(data.value["tracks"], response)
  {
    if data.None? || "tracks" !in data.value {
      return Failure(400, "No track data provided");
    }
    var tracks := data.value["tracks"];
    var trackUris: seq<Json> := [];
    for i := 0 to |tracks|
      invariant forall j :: 0 <= j < i ==> "uri" in tracks[j]
      invariant trackUris == Uris(tracks[..i])
    {
      if "uri" in tracks[i] {
        trackUris := trackUris + [tracks[i]["uri"]];
      } else {
        return Failure(400, "Track data missing 'uri' key");
      }
    }
    assert tracks[..|tracks|] == tracks;
    if trackUris == [] {
      return Failure(400, "No track URIs found");
    }
    return Success(trackUris);
  }

  /** Whether `response` is what `create_playlist` answers for `tracks`. */
  predicate AnswersCreate(tracks: seq<map<string, Json>>, response: Response<seq<Json>>) {
    if exists i :: 0 <= i < |tracks| && "uri" !in tracks[i] then response == Failure(400, "Track data missing 'uri' key")
    else if tracks == [] then response == Failure(400, "No track URIs found")
    else response == Success(Uris(tracks))
  }

  /** A request is accepted exactly when it lists at least one track and every
      track has a URI; then one URI per track goes out, in the request's order. */
  lemma CreateAcceptsExactly(tracks: seq<map<string, Json>>, response: Response<seq<Json>>)
    requires AnswersCreate(tracks, response)
    ensures response.Success? <==> tracks != [] && forall i :: 0 <= i < |tracks| ==> "uri" in tracks[i]
    ensures response.Success? ==>
      |response.value| == |tracks| && forall i :: 0 <= i < |tracks| ==> response.value[i] == tracks[i]["uri"]
  {
  }

  /** The keys `playlist_tracks` removes from every track. */
  const DroppedKeys: set<string> := {"available_markets", "external_ids"}

  /** One track of the merge: its `audio_features` set to `feature`, then
      `available_markets` and `external_ids` removed; every other key is kept. */
  function MergeTrack(track: map<string, Json>, feature: Json): (merged: map<string, Json>)
    ensures "audio_features" in merged && merged["audio_features"] == feature
    ensures forall k :: k in DroppedKeys ==> k !in merged
    ensures forall k :: k !in DroppedKeys && k != "audio_features" ==>
      (k in merged <==> k in track) && (k in track ==> merged[k] == track[k])
  {
    track["audio_features" := feature] - DroppedKeys
  }

  function Min(a: nat, b: nat): nat {
    if a < b then a else b
  }

  /** `zip(items, audio_features)` merged: one track per position both lists reach. */
  function MergePlaylist(items: seq<map<string, Json>>, features: seq<Json>): (merged: seq<map<string, Json>>)
    ensures |merged| == Min(|items|, |features|)
    ensures forall i :: 0 <= i < |merged| ==> merged[i] == MergeTrack(items[i], features[i])
  {
    seq(Min(|items|, |features|), i requires 0 <= i < Min(|items|, |features|) => MergeTrack(items[i], features[i]))
  }

  /** The merged tracks of every playlist, playlist after playlist. */
  function AllTracks(items: seq<seq<map<string, Json>>>, features: seq<seq<Json>>): seq<map<string, Json>>
    requires |features| == |items|
  {
    if items == [] then []
    else
      var n := |items| - 1;
      AllTracks(items[..n], features[..n]) + MergePlaylist(items[n], features[n])
  }

  /** `playlist_tracks`. The service's answers are parameters: `items[p]` holds the
      `track` objects of the p-th requested playlist and `features[p]` the feature
      records the service returned for their ids. */
  method PlaylistTracks(playlistIds: seq<string>, items: seq<seq<map<string, Json>>>, features: seq<seq<Json>>)
    returns (response: Response<seq<map<string, Json>>>)
    requires |items| == |playlistIds| && |features| == |playlistIds|
    ensures playlistIds == [] ==> response == Failure(400, "No playlist IDs provided")
    ensures playlistIds != [] ==> response == Success(AllTracks(items, features))
  {
    if playlistIds == [] {
      return Failure(400, "No playlist IDs provided");
    }
    var allTracks: seq<map<string, Json>> := [];
    for p := 0 to |playlistIds|
      invariant allTracks == AllTracks(items[..p], features[..p])
    {
      var tracks, audioFeatures := items[p], features[p];
      var before := allTracks;
      for i := 0 to Min(|tracks|, |audioFeatures|)
        invariant allTracks == before + MergePlaylist(tracks[..i], audioFeatures[..i])
      {
        var merged := MergeTrack(tracks[i], audioFeatures[i]);
        assert MergePlaylist(tracks[..i + 1], audioFeatures[..i + 1])
          == MergePlaylist(tracks[..i], audioFeatures[..i]) + [merged];
        allTracks := allTracks + [merged];
      }
      assert MergePlaylist(tracks[..Min(|tracks|, |audioFeatures|)], audioFeatures[..Min(|tracks|, |audioFeatures|)])
        == MergePlaylist(tracks, audioFeatures);
      assert items[..p + 1][..p] == items[..p] && features[..p + 1][..p] == features[..p];
    }
    assert items[..|playlistIds|] == items && features[..|playlistIds|] == features;
    return Success(allTracks);
  }

  /** The answer holds one merged track per zipped position of every playlist, in
      request order: the track at position `i` of the p-th playlist, merged with the
      feature record at the same position. */
  lemma {:induction false} AllTracksOrder(items: seq<seq<map<string, Json>>>, features: seq<seq<Json>>, p: nat, i: nat)
    requires |features| == |items| && p < |items| && i < Min(|items[p]|, |features[p]|)
    ensures |AllTracks(items[..p], features[..p])| + i < |AllTracks(items, features)|
    ensures AllTracks(items, features)[|AllTracks(items[..p], features[..p])| + i]
      == MergeTrack(items[p][i], features[p][i])
  {
    var n := |items| - 1;
    assert items[..n + 1] == items && features[..n + 1] == features;
    if p < n {
      AllTracksOrder(items[..n], features[..n], p, i);
      assert items[..n][..p] == items[..p] && features[..n][..p] == features[..p];
    } else {
      assert items[..n] == items[..p] && features[..n] == features[..p];
    }
  }
}
