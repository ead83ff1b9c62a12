/** The playlist page's ordering and scoring: `dynamicSort` groups the stored
    tracks by (key, mode), sorts each group by tempo then energy and concatenates
    the groups; each track is then rated against its predecessor and the page
    shows the average rating. */
module DataHandling {
  import opened Seqs
  import opened StableSort
  import opened Tracks

  /** The group a track falls in. The source keys groups by the string
      `${key}-${mode}`, which is injective on integer pairs and is never an array
      index, so JavaScript enumerates those keys in insertion order. */
  function KeyModeOf(t: TrackData): (int, int) {
    (t.audioFeatures.key, t.audioFeatures.mode)
  }

  /** The within-group comparator: tempo first, energy to break ties. */
  function TempoEnergy(t: TrackData): SortKey {
    SortKey(t.audioFeatures.tempo, t.audioFeatures.energy)
  }

  /** Holds of the tracks of group `km`. */
  function InGroup(km: (int, int)): TrackData -> bool {
    (t: TrackData) => KeyModeOf(t) == km
  }

  /** The tracks of one group, in input order. */
  function Group(tracks: seq<TrackData>, km: (int, int)): seq<TrackData> {
    Filter(tracks, InGroup(km))
  }

  /** Appending a track extends its own group and no other. */
  lemma GroupAppend(tracks: seq<TrackData>, t: TrackData, km: (int, int))
    ensures Group(tracks + [t], km) == Group(tracks, km) + (if KeyModeOf(t) == km then [t] else [])
  {
    assert (tracks + [t])[..|tracks|] == tracks;
  }

  /** The groups' keys in the order in which a track of each group first appears. */
  function FirstSeen(tracks: seq<TrackData>): seq<(int, int)> {
    if tracks == [] then []
    else
      var prev := FirstSeen(tracks[..|tracks| - 1]);
      var km := KeyModeOf(tracks[|tracks| - 1]);
      if km in prev then prev else prev + [km]
  }

  /** The groups named by `ks`, each sorted by tempo then energy, one after the other. */
  function ConcatGroups(tracks: seq<TrackData>, ks: seq<(int, int)>): seq<TrackData> {
    if ks == [] then []
    else ConcatGroups(tracks, ks[..|ks| - 1]) + SortBy(Group(tracks, ks[|ks| - 1]), TempoEnergy)
  }

  /** The order `dynamicSort` returns. */
  function GroupedOrder(tracks: seq<TrackData>): seq<TrackData> {
    ConcatGroups(tracks, FirstSeen(tracks))
  }

  ghost predicate Distinct<T>(s: seq<T>) {
    forall i, j :: 0 <= i < j < |s| ==> s[i] != s[j]
  }

  /** `dynamicSort`: group the tracks, sort every group, concatenate the groups
      in key-enumeration order. */
  method DynamicSort(tracks: seq<TrackData>) returns (sortedTracks: seq<TrackData>)
    ensures sortedTracks == GroupedOrder(tracks)
  {
    var groupedTracks, keyModes := GroupByKeyMode(tracks);
    FirstSeenDistinct(tracks);
    groupedTracks := SortGroups(groupedTracks, keyModes);
    sortedTracks := CombineGroups(groupedTracks, keyModes, tracks);
  }

  /** The first pass: push each track onto its group's array, creating the array
      when the group is first seen. */
  method GroupByKeyMode(tracks: seq<TrackData>)
    returns (groupedTracks: map<(int, int), seq<TrackData>>, keyModes: seq<(int, int)>)
    ensures keyModes == FirstSeen(tracks)
    ensures forall km :: km in groupedTracks <==> km in keyModes
    ensures forall km :: km in groupedTracks ==> groupedTracks[km] == Group(tracks, km)
  {
    groupedTracks := map[];
    keyModes := [];
    for i := 0 to |tracks|
      invariant keyModes == FirstSeen(tracks[..i])
      invariant forall km :: km in groupedTracks <==> km in keyModes
      invariant forall km :: km in groupedTracks ==> groupedTracks[km] == Group(tracks[..i], km)
      invariant forall km :: km !in groupedTracks ==> Group(tracks[..i], km) == []
    {
      var track := tracks[i];
      var keyMode := KeyModeOf(track);
      assert tracks[..i + 1] == tracks[..i] + [track];
      forall km ensures Group(tracks[..i + 1], km) ==
        Group(tracks[..i], km) + (if keyMode == km then [track] else [])
      {
        GroupAppend(tracks[..i], track, km);
      }
      if keyMode !in groupedTracks {
        groupedTracks := groupedTracks[keyMode := []];
        keyModes := keyModes + [keyMode];
      }
      groupedTracks := groupedTracks[keyMode := groupedTracks[keyMode] + [track]];
    }
    assert tracks[..|tracks|] == tracks;
  }

  /** The second pass: sort every group by tempo, then energy. */
  method SortGroups(groups: map<(int, int), seq<TrackData>>, keyModes: seq<(int, int)>)
    returns (sorted: map<(int, int), seq<TrackData>>)
    requires Distinct(keyModes)
    requires forall km :: km in groups <==> km in keyModes
    ensures forall km :: km in sorted <==> km in groups
    ensures forall km :: km in sorted ==> sorted[km] == SortBy(groups[km], TempoEnergy)
  {
    sorted := groups;
    for j := 0 to |keyModes|
      invariant forall km :: km in sorted <==> km in groups
      invariant forall m :: 0 <= m < |keyModes| ==>
        sorted[keyModes[m]] == (if m < j then SortBy(groups[keyModes[m]], TempoEnergy) else groups[keyModes[m]])
    {
      var km := keyModes[j];
      assert forall m :: 0 <= m < |keyModes| && m != j ==> keyModes[m] != km;
      sorted := sorted[km := SortBy(sorted[km], TempoEnergy)];
    }
    forall km | km in sorted ensures sorted[km] == SortBy(groups[km], TempoEnergy) {
      var m :| 0 <= m < |keyModes| && keyModes[m] == km;
    }
  }

  /** The third pass: concatenate the sorted groups in the order their keys were created. */
  method CombineGroups(groups: map<(int, int), seq<TrackData>>, keyModes: seq<(int, int)>, ghost tracks: seq<TrackData>)
    returns (sortedTracks: seq<TrackData>)
    requires forall km :: km in keyModes ==> km in groups && groups[km] == SortBy(Group(tracks, km), TempoEnergy)
    ensures sortedTracks == ConcatGroups(tracks, keyModes)
  {
    sortedTracks := [];
    for j := 0 to |keyModes|
      invariant sortedTracks == ConcatGroups(tracks, keyModes[..j])
    {
      assert keyModes[..j + 1][..j] == keyModes[..j];
      sortedTracks := sortedTracks + groups[keyModes[j]];
    }
    assert keyModes[..|keyModes|] == keyModes;
  }

  /** No group key is listed twice. */
  lemma {:induction false} FirstSeenDistinct(tracks: seq<TrackData>)
    ensures Distinct(FirstSeen(tracks))
  {
    if tracks != [] {
      FirstSeenDistinct(tracks[..|tracks| - 1]);
    }
  }

  /** Every group key appears once, and exactly the keys of the input's tracks appear. */
  lemma {:induction false} FirstSeenFacts(tracks: seq<TrackData>)
    ensures Distinct(FirstSeen(tracks))
    ensures forall km :: km in FirstSeen(tracks) <==> exists t :: t in tracks && KeyModeOf(t) == km
  {
    FirstSeenDistinct(tracks);
    if tracks != [] {
      var n := |tracks| - 1;
      FirstSeenFacts(tracks[..n]);
      assert tracks == tracks[..n] + [tracks[n]];
    }
  }

  /** A group's key is first seen iff the group is not empty. */
  lemma GroupNonEmpty(tracks: seq<TrackData>, km: (int, int))
    ensures km in FirstSeen(tracks) <==> Group(tracks, km) != []
  {
    FirstSeenFacts(tracks);
    FilterMembers(tracks, InGroup(km));
    if Group(tracks, km) != [] {
      assert Group(tracks, km)[0] in Group(tracks, km);
    }
  }

  /** Every track of a group carries the group's key. */
  lemma GroupKeys(tracks: seq<TrackData>, km: (int, int))
    ensures forall t :: t in Group(tracks, km) ==> t in tracks && KeyModeOf(t) == km
    ensures forall t :: t in SortBy(Group(tracks, km), TempoEnergy) ==> t in tracks && KeyModeOf(t) == km
  {
    FilterMembers(tracks, InGroup(km));
    forall t | t in SortBy(Group(tracks, km), TempoEnergy) ensures t in Group(tracks, km) {
      assert t in multiset(SortBy(Group(tracks, km), TempoEnergy));
    }
  }

  lemma {:induction false} ConcatGroupsKeys(tracks: seq<TrackData>, ks: seq<(int, int)>)
    ensures forall t :: t in ConcatGroups(tracks, ks) ==> t in tracks && KeyModeOf(t) in ks
  {
    if ks != [] {
      var n := |ks| - 1;
      ConcatGroupsKeys(tracks, ks[..n]);
      GroupKeys(tracks, ks[n]);
    }
  }

  /** Regrouping the concatenation recovers the sorted groups it was built from. */
  lemma {:induction false} GroupOfConcat(tracks: seq<TrackData>, ks: seq<(int, int)>, km: (int, int))
    requires Distinct(ks)
    ensures Group(ConcatGroups(tracks, ks), km) ==
      if km in ks then SortBy(Group(tracks, km), TempoEnergy) else []
  {
    if ks != [] {
      DistinctSnoc(ks);
      SplitLast(ks);
      var init, k := ks[..|ks| - 1], ks[|ks| - 1];
      GroupOfConcat(tracks, init, km);
      SortedGroupFilter(tracks, k, km);
      FilterConcat(ConcatGroups(tracks, init), SortBy(Group(tracks, k), TempoEnergy), InGroup(km));
      assert km in ks <==> km in init || km == k;
    }
  }

  /** The sorted group of `k` holds only tracks of `k`. */
  lemma SortedGroupFilter(tracks: seq<TrackData>, k: (int, int), km: (int, int))
    ensures Filter(SortBy(Group(tracks, k), TempoEnergy), InGroup(km)) ==
      if km == k then SortBy(Group(tracks, k), TempoEnergy) else []
  {
    GroupKeys(tracks, k);
    if km == k {
      FilterAll(SortBy(Group(tracks, k), TempoEnergy), InGroup(km));
    } else {
      FilterNone(SortBy(Group(tracks, k), TempoEnergy), InGroup(km));
    }
  }

  /** `dynamicSort` returns a permutation of its input. */
  lemma GroupedOrderPermutes(tracks: seq<TrackData>)
    ensures multiset(GroupedOrder(tracks)) == multiset(tracks)
  {
    var r := GroupedOrder(tracks);
    FirstSeenFacts(tracks);
    forall x ensures multiset(r)[x] == multiset(tracks)[x] {
      var km := KeyModeOf(x);
      var p := InGroup(km);
      FilterCount(r, p, x);
      FilterCount(tracks, p, x);
      GroupOfConcat(tracks, FirstSeen(tracks), km);
      if km !in FirstSeen(tracks) {
        assert x !in tracks;
      }
    }
    MultisetExtensionality(multiset(r), multiset(tracks));
  }

  /** The tracks of each (key, mode) group are adjacent in the result. */
  ghost predicate GroupsContiguous(s: seq<TrackData>) {
    forall i, j, l :: 0 <= i < j < l < |s| && KeyModeOf(s[i]) == KeyModeOf(s[l]) ==>
      KeyModeOf(s[j]) == KeyModeOf(s[i])
  }

  /** Appending a group whose key the prefix does not use keeps groups contiguous. */
  lemma AppendGroupContiguous(a: seq<TrackData>, b: seq<TrackData>, k: (int, int))
    requires GroupsContiguous(a)
    requires forall t :: t in a ==> KeyModeOf(t) != k
    requires forall t :: t in b ==> KeyModeOf(t) == k
    ensures GroupsContiguous(a + b)
  {
    var s := a + b;
    forall i, j, l | 0 <= i < j < l < |s| && KeyModeOf(s[i]) == KeyModeOf(s[l])
      ensures KeyModeOf(s[j]) == KeyModeOf(s[i])
    {
      if l < |a| {
        assert s[i] == a[i] && s[j] == a[j] && s[l] == a[l];
      } else if i >= |a| {
        assert s[i] == b[i - |a|] && s[j] == b[j - |a|] && s[l] == b[l - |a|];
      } else {
        assert false;
      }
    }
  }

  lemma {:induction false} ConcatGroupsContiguous(tracks: seq<TrackData>, ks: seq<(int, int)>)
    requires Distinct(ks)
    ensures GroupsContiguous(ConcatGroups(tracks, ks))
  {
    if ks != [] {
      var n := |ks| - 1;
      var init, k := ks[..n], ks[n];
      assert Distinct(init);
      ConcatGroupsContiguous(tracks, init);
      ConcatGroupsKeys(tracks, init);
      GroupKeys(tracks, k);
      AppendGroupContiguous(ConcatGroups(tracks, init), SortBy(Group(tracks, k), TempoEnergy), k);
    }
  }

  /** Tracks of one group come out in tempo order, ties in energy order. */
  ghost predicate GroupsSorted(s: seq<TrackData>) {
    forall i, j :: 0 <= i < j < |s| && KeyModeOf(s[i]) == KeyModeOf(s[j]) ==>
      !Precedes(TempoEnergy(s[j]), TempoEnergy(s[i]))
  }

  /** Appending a sorted group whose key the prefix does not use keeps groups sorted. */
  lemma AppendGroupSorted(a: seq<TrackData>, b: seq<TrackData>, k: (int, int))
    requires GroupsSorted(a) && SortedBy(b, TempoEnergy)
    requires forall t :: t in a ==> KeyModeOf(t) != k
    requires forall t :: t in b ==> KeyModeOf(t) == k
    ensures GroupsSorted(a + b)
  {
    var s := a + b;
    forall i, j | 0 <= i < j < |s| && KeyModeOf(s[i]) == KeyModeOf(s[j])
      ensures !Precedes(TempoEnergy(s[j]), TempoEnergy(s[i]))
    {
      if j < |a| {
        assert s[i] == a[i] && s[j] == a[j];
      } else if i >= |a| {
        assert s[i] == b[i - |a|] && s[j] == b[j - |a|];
      } else {
        assert false;
      }
    }
  }

  lemma {:induction false} ConcatGroupsSorted(tracks: seq<TrackData>, ks: seq<(int, int)>)
    requires Distinct(ks)
    ensures GroupsSorted(ConcatGroups(tracks, ks))
  {
    if ks != [] {
      var n := |ks| - 1;
      var init, k := ks[..n], ks[n];
      assert Distinct(init);
      ConcatGroupsSorted(tracks, init);
      ConcatGroupsKeys(tracks, init);
      GroupKeys(tracks, k);
      SortBySorted(Group(tracks, k), TempoEnergy);
      AppendGroupSorted(ConcatGroups(tracks, init), SortBy(Group(tracks, k), TempoEnergy), k);
    }
  }

  /** The result keeps each group together and sorts every group by tempo, then energy. */
  lemma GroupedOrderShape(tracks: seq<TrackData>)
    ensures GroupsContiguous(GroupedOrder(tracks))
    ensures GroupsSorted(GroupedOrder(tracks))
  {
    FirstSeenFacts(tracks);
    ConcatGroupsContiguous(tracks, FirstSeen(tracks));
    ConcatGroupsSorted(tracks, FirstSeen(tracks));
  }

  lemma {:induction false} FirstSeenAppendGroup(a: seq<TrackData>, g: seq<TrackData>, k: (int, int))
    requires g != []
    requires forall t :: t in g ==> KeyModeOf(t) == k
    requires k !in FirstSeen(a)
    ensures FirstSeen(a + g) == FirstSeen(a) + [k]
  {
    var n := |g| - 1;
    assert (a + g)[..|a + g| - 1] == a + g[..n];
    assert (a + g)[|a + g| - 1] == g[n];
    if n > 0 {
      FirstSeenAppendGroup(a, g[..n], k);
    } else {
      assert a + g[..n] == a;
    }
  }

  /** A first-seen key's sorted group is non-empty and carries only that key. */
  lemma SortedGroupOf(tracks: seq<TrackData>, k: (int, int))
    requires k in FirstSeen(tracks)
    ensures SortBy(Group(tracks, k), TempoEnergy) != []
    ensures forall t :: t in SortBy(Group(tracks, k), TempoEnergy) ==> KeyModeOf(t) == k
  {
    GroupKeys(tracks, k);
    GroupNonEmpty(tracks, k);
  }

  /** Appending one more first-seen key appends its group, whose key is then new. */
  lemma FirstSeenOfConcatSnoc(tracks: seq<TrackData>, ks: seq<(int, int)>)
    requires ks != []
    requires FirstSeen(ConcatGroups(tracks, ks[..|ks| - 1])) == ks[..|ks| - 1]
    requires ks[|ks| - 1] !in ks[..|ks| - 1] && ks[|ks| - 1] in FirstSeen(tracks)
    ensures FirstSeen(ConcatGroups(tracks, ks)) == ks
  {
    var n := |ks| - 1;
    var a, g := ConcatGroups(tracks, ks[..n]), SortBy(Group(tracks, ks[n]), TempoEnergy);
    assert ConcatGroups(tracks, ks) == a + g;
    SortedGroupOf(tracks, ks[n]);
    FirstSeenAppendGroup(a, g, ks[n]);
    SplitLast(ks);
  }

  lemma SplitLast<T>(s: seq<T>)
    requires s != []
    ensures s[..|s| - 1] + [s[|s| - 1]] == s
  {
  }

  lemma DistinctSnoc<T>(s: seq<T>)
    requires Distinct(s) && s != []
    ensures Distinct(s[..|s| - 1]) && s[|s| - 1] !in s[..|s| - 1]
    ensures forall x :: x in s[..|s| - 1] ==> x in s
  {
  }

  lemma {:induction false} FirstSeenOfConcat(tracks: seq<TrackData>, ks: seq<(int, int)>)
    requires Distinct(ks)
    requires forall k :: k in ks ==> k in FirstSeen(tracks)
    ensures FirstSeen(ConcatGroups(tracks, ks)) == ks
  {
    if ks != [] {
      DistinctSnoc(ks);
      FirstSeenOfConcat(tracks, ks[..|ks| - 1]);
      FirstSeenOfConcatSnoc(tracks, ks);
    }
  }

  /** The groups come out in the order in which the input first shows each (key, mode). */
  lemma GroupedOrderGroupSequence(tracks: seq<TrackData>)
    ensures FirstSeen(GroupedOrder(tracks)) == FirstSeen(tracks)
  {
    FirstSeenFacts(tracks);
    FirstSeenOfConcat(tracks, FirstSeen(tracks));
  }

  /** Holds of the tracks that agree with `x` on key, mode, tempo and energy. */
  function SameSlot(x: TrackData): TrackData -> bool {
    (y: TrackData) => KeyModeOf(y) == KeyModeOf(x) && TempoEnergy(y) == TempoEnergy(x)
  }

  /** The tracks the comparator cannot tell apart from `x`, in order. */
  function FullTies(s: seq<TrackData>, x: TrackData): seq<TrackData> {
    Filter(s, SameSlot(x))
  }

  lemma FullTiesOfGroup(s: seq<TrackData>, x: TrackData)
    ensures FullTies(s, x) == Filter(Group(s, KeyModeOf(x)), SameSlot(x))
  {
    FilterOfFilter(s, InGroup(KeyModeOf(x)), SameSlot(x));
  }

  /** Within one group, agreeing with `x` means agreeing on tempo and energy. */
  lemma SameSlotInGroup(g: seq<TrackData>, x: TrackData)
    requires forall t :: t in g ==> KeyModeOf(t) == KeyModeOf(x)
    ensures Filter(g, SameSlot(x)) == Ties(g, TempoEnergy, TempoEnergy(x))
  {
    FilterCongruent(g, SameSlot(x), HasKey(TempoEnergy, TempoEnergy(x)));
  }

  /** Tracks that the comparator cannot tell apart keep their input order. */
  lemma GroupedOrderStable(tracks: seq<TrackData>, x: TrackData)
    ensures FullTies(GroupedOrder(tracks), x) == FullTies(tracks, x)
  {
    var r := GroupedOrder(tracks);
    var km := KeyModeOf(x);
    var g := Group(tracks, km);
    FirstSeenFacts(tracks);
    GroupOfConcat(tracks, FirstSeen(tracks), km);
    FullTiesOfGroup(r, x);
    FullTiesOfGroup(tracks, x);
    GroupKeys(tracks, km);
    if km in FirstSeen(tracks) {
      SameSlotInGroup(SortBy(g, TempoEnergy), x);
      SameSlotInGroup(g, x);
      SortByStable(g, TempoEnergy, TempoEnergy(x));
    } else {
      GroupNonEmpty(tracks, km);
    }
  }

  lemma {:induction false} ConcatGroupsOfGrouped(tracks: seq<TrackData>, ks: seq<(int, int)>)
    requires Distinct(ks)
    requires forall k :: k in ks ==> k in FirstSeen(tracks)
    ensures ConcatGroups(GroupedOrder(tracks), ks) == ConcatGroups(tracks, ks)
  {
    if ks != [] {
      var n := |ks| - 1;
      var init, k := ks[..n], ks[n];
      assert Distinct(init);
      ConcatGroupsOfGrouped(tracks, init);
      FirstSeenFacts(tracks);
      GroupOfConcat(tracks, FirstSeen(tracks), k);
      SortBySorted(Group(tracks, k), TempoEnergy);
      SortByOfSorted(SortBy(Group(tracks, k), TempoEnergy), TempoEnergy);
    }
  }

  /** Sorting an already sorted playlist again changes nothing. */
  lemma GroupedOrderIdempotent(tracks: seq<TrackData>)
    ensures GroupedOrder(GroupedOrder(tracks)) == GroupedOrder(tracks)
  {
    GroupedOrderGroupSequence(tracks);
    FirstSeenFacts(tracks);
    ConcatGroupsOfGrouped(tracks, FirstSeen(tracks));
  }

  /** `calculateFlowRating`: 10 less the key distance (linear, not around the
      circle of pitch classes), 1 for a mode change, a tenth of the tempo gap and
      ten times the energy gap, but never below 1. Exactly identical key, mode,
      tempo and energy give the full 10. */
  function FlowRating(a: AudioFeatures, b: AudioFeatures): (rating: real)
    ensures 1.0 <= rating <= 10.0
    ensures rating == 10.0 <==>
      a.key == b.key && a.mode == b.mode && a.tempo == b.tempo && a.energy == b.energy
  {
    var raw := 10.0 - Gap(a, b);
    if raw > 1.0 then raw else 1.0
  }

  /** What the rating subtracts from 10: the key difference, 1 for a mode change, a
      tenth of the tempo difference and ten times the energy difference. */
  function Gap(a: AudioFeatures, b: AudioFeatures): real {
    var keyDifference := Abs((a.key - b.key) as real);
    var modeDifference := if a.mode == b.mode then 0.0 else 1.0;
    var tempoDifference := Abs(a.tempo - b.tempo);
    var energyDifference := Abs(a.energy - b.energy);
    keyDifference + modeDifference + tempoDifference / 10.0 + energyDifference * 10.0
  }

  /** The rating does not depend on which track comes first. */
  lemma FlowRatingSymmetric(a: AudioFeatures, b: AudioFeatures)
    ensures FlowRating(a, b) == FlowRating(b, a)
  {
  }

  /** Key distance is linear: B next to C counts as eleven steps apart, so the
      pair gets the floor rating although the keys are neighbours on the circle. */
  lemma FlowRatingLinearKey(a: AudioFeatures, b: AudioFeatures)
    requires a.key == 11 && b.key == 0
    requires a.mode == b.mode && a.tempo == b.tempo && a.energy == b.energy
    ensures FlowRating(a, b) == 1.0
  {
  }

  /** A smoother transition never rates lower: when `b` is at least as close to `a`
      as `c` is in key, mode, tempo and energy, `b` rates at least as high. */
  lemma FlowRatingMonotone(a: AudioFeatures, b: AudioFeatures, c: AudioFeatures)
    requires Abs((a.key - b.key) as real) <= Abs((a.key - c.key) as real)
    requires a.mode == b.mode || a.mode != c.mode
    requires Abs(a.tempo - b.tempo) <= Abs(a.tempo - c.tempo)
    requires Abs(a.energy - b.energy) <= Abs(a.energy - c.energy)
    ensures FlowRating(a, b) >= FlowRating(a, c)
  {
    GapCloser(a, b, c);
  }

  lemma GapCloser(a: AudioFeatures, b: AudioFeatures, c: AudioFeatures)
    requires Abs((a.key - b.key) as real) <= Abs((a.key - c.key) as real)
    requires a.mode == b.mode || a.mode != c.mode
    requires Abs(a.tempo - b.tempo) <= Abs(a.tempo - c.tempo)
    requires Abs(a.energy - b.energy) <= Abs(a.energy - c.energy)
    ensures Gap(a, b) <= Gap(a, c)
  {
    var key1, mode1, tempo1, energy1 :=
      Abs((a.key - b.key) as real), if a.mode == b.mode then 0.0 else 1.0, Abs(a.tempo - b.tempo), Abs(a.energy - b.energy);
    var key2, mode2, tempo2, energy2 :=
      Abs((a.key - c.key) as real), if a.mode == c.mode then 0.0 else 1.0, Abs(a.tempo - c.tempo), Abs(a.energy - c.energy);
    assert Gap(a, b) == key1 + mode1 + tempo1 / 10.0 + energy1 * 10.0;
    assert Gap(a, c) == key2 + mode2 + tempo2 / 10.0 + energy2 * 10.0;
    GapMonotone(key1, mode1, tempo1, energy1, key2, mode2, tempo2, energy2);
  }

  /** The weighted sum behind the rating grows with each of its four differences. */
  lemma GapMonotone(key1: real, mode1: real, tempo1: real, energy1: real,
                    key2: real, mode2: real, tempo2: real, energy2: real)
    requires key1 <= key2 && mode1 <= mode2 && tempo1 <= tempo2 && energy1 <= energy2
    ensures key1 + mode1 + tempo1 / 10.0 + energy1 * 10.0 <= key2 + mode2 + tempo2 / 10.0 + energy2 * 10.0
  {
  }

  /** A tempo jump of 90 BPM or more alone takes the rating down to the floor. */
  lemma FlowRatingTempoFloor(a: AudioFeatures, b: AudioFeatures)
    requires Abs(a.tempo - b.tempo) >= 90.0
    ensures FlowRating(a, b) == 1.0
  {
  }

  /** The rating loop of the page: the first track rates 10, every later one is
      rated against its predecessor; the running total and count feed the average. */
  method RateSortedTracks(sortedTracks: seq<TrackData>)
    returns (ratings: seq<real>, totalFlowRating: real, flowRatingsCount: nat)
    ensures |ratings| == |sortedTracks| == flowRatingsCount
    ensures |sortedTracks| > 0 ==> ratings[0] == 10.0
    ensures forall i :: 0 < i < |sortedTracks| ==>
      ratings[i] == FlowRating(sortedTracks[i - 1].audioFeatures, sortedTracks[i].audioFeatures)
    ensures totalFlowRating == Sum(ratings)
    ensures flowRatingsCount as real <= totalFlowRating <= 10.0 * flowRatingsCount as real
  {
    ratings := [];
    totalFlowRating := 0.0;
    flowRatingsCount := 0;
    for index := 0 to |sortedTracks|
      invariant |ratings| == index == flowRatingsCount
      invariant index > 0 ==> ratings[0] == 10.0
      invariant forall i :: 0 < i < index ==>
        ratings[i] == FlowRating(sortedTracks[i - 1].audioFeatures, sortedTracks[i].audioFeatures)
      invariant totalFlowRating == Sum(ratings)
      invariant flowRatingsCount as real <= totalFlowRating <= 10.0 * flowRatingsCount as real
    {
      var flowRating := if index == 0 then 10.0
        else FlowRating(sortedTracks[index - 1].audioFeatures, sortedTracks[index].audioFeatures);
      assert (ratings + [flowRating])[..index] == ratings;
      ratings := ratings + [flowRating];
      totalFlowRating := totalFlowRating + flowRating;
      flowRatingsCount := flowRatingsCount + 1;
    }
  }

  /** `totalFlowRating / flowRatingsCount`; `None` stands for the `NaN` that an
      empty playlist produces (0 / 0). */
  function AverageFlowRating(totalFlowRating: real, flowRatingsCount: nat): (average: Option<real>)
    ensures average.None? <==> flowRatingsCount == 0
    ensures flowRatingsCount > 0 && flowRatingsCount as real <= totalFlowRating <= 10.0 * flowRatingsCount as real
      ==> 1.0 <= average.value <= 10.0
  {
    if flowRatingsCount == 0 then None
    else
      var count := flowRatingsCount as real;
      AverageBounds(totalFlowRating, count);
      Some(totalFlowRating / count)
  }

  /** A total between `count` and `10 * count` averages to a value in [1, 10]. */
  lemma AverageBounds(total: real, count: real)
    requires count > 0.0
    ensures count <= total <= 10.0 * count ==> 1.0 <= total / count <= 10.0
  {
    var average := total / count;
    assert average * count == total;
    if average < 1.0 {
      assert (1.0 - average) * count > 0.0;
    }
    if average > 10.0 {
      assert (average - 10.0) * count > 0.0;
    }
  }
}
